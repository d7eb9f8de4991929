/** Whole runs of taking, looking up and giving back ids (radix-tree.c:2159-2228, 2053-2088). */
module RxIdrRun {
  import opened CTypes
  import opened RxModel
  import opened RxHeap
  import opened RxSnug
  import opened RxSteps
  import opened RxTree
  import opened RxInsert
  import opened RxDelete
  import opened RxIdr

  datatype Call = Alloc(start: nat, max: nat, item: Val) | Find(id: nat) | Release(id: nat)

  datatype Reply = Got(id: nat) | Full | NoMem | Gave(entry: Entry)

  predicate Legal(c: Call) { if c.Alloc? then c.max <= ULONG_MAX else c.id <= ULONG_MAX }

  /** The search for an id slips past the last one. */
  ghost predicate Slipping(M: map<nat, Entry>, c: Call) { c.Alloc? && Slips(M, c.start, c.max) }

  /**
   * What a call may return when the indices of M are in use: the lowest free id, -ENOSPC only if there is none. But if
   * the search slips, the id is what an unsigned long has of the first free index past the last id.
   */
  ghost predicate Right(M: map<nat, Entry>, c: Call, r: Reply) {
    Roomy(M) &&
    match c
    case Alloc(start, max, _) =>
      && !r.Gave?
      && (r.Got? && Slipping(M, c) ==> r.id == Lost(M) - TWO64 <= max)
      && (r.Got? && !Slipping(M, c) ==>
          start <= r.id <= max && r.id !in M && forall k: nat :: start <= k < r.id ==> k in M)
      && (r.Full? && Slipping(M, c) ==> Lost(M) - TWO64 > max)
      && (r.Full? ==> forall k: nat :: start <= k <= max ==> k in M)
    case _ => r == Gave(At(M, c.id))
  }

  /** The indices in use after a call. */
  ghost function Turn(M: map<nat, Entry>, c: Call, r: Reply): map<nat, Entry> {
    match c
    case Alloc(_, _, x) => if r.Got? then M[if Slipping(M, c) then TWO64 + r.id else r.id := Item(x)] else M
    case Find(_) => M
    case Release(id) => M - {id}
  }

  ghost function Play(calls: seq<Call>, replies: seq<Reply>): map<nat, Entry>
    requires |replies| <= |calls|
  {
    if replies == [] then map[]
    else var n := |replies| - 1; Turn(Play(calls, replies[..n]), calls[n], replies[n])
  }

  /** All replies are right for the indices in use at the time. */
  ghost predicate Told(calls: seq<Call>, replies: seq<Reply>) {
    |replies| <= |calls| && forall i :: 0 <= i < |replies| ==> Right(Play(calls, replies[..i]), calls[i], replies[i])
  }

  /** Whether the search has slipped shows in the id: it is out of range, or was in use before. */
  lemma {:induction false} SlipShows(M: map<nat, Entry>, c: Call, r: Reply)
    requires Right(M, c, r) && Legal(c) && c.Alloc? && r.Got?
    ensures Slipping(M, c) <==> r.id < c.start || r.id in M
  {
    hide Block, FirstStop, Passes;
  }

  /** One call. */
  method Do(root: RxRoot, mem: Allocator, c: Call) returns (r: Reply)
    requires Valid(root) && root.idr && Roomy(root.items) && Tidy(root.Now(), null) && Legal(c)
    modifies root, root.pool, mem
    ensures Valid(root) && Tidy(root.Now(), null) && fresh(root.pool - old(root.pool))
    ensures Right(old(root.items), c, r) && root.items == Turn(old(root.items), c, r)
    ensures mem.left <= old(mem.left) <= mem.left + PRELOAD_SIZE && (r.NoMem? ==> old(mem.left) < PRELOAD_SIZE)
    ensures r.NoMem? <==> c.Alloc? && Short(old(root.Now()), old(root.items), c.start, c.max, old(mem.left))
    ensures !r.NoMem? && Trim(old(root.Now()), old(root.items)) ==> Trim(root.Now(), root.items)
  {
    hide RxRoot.Now, Valid, Good, Tidy, Slips, Roomy, Lost, Trim, Short, Lively, Snug;
    match c {
      case Alloc(start, max, x) =>
        var out := Take(root, mem, start, max, Item(x));
        r := match out case Free(_, _, id) => Got(id) case NoSpace => Reply.Full case _ => NoMem;
      case Find(id) =>
        var e := Lookup(root, id);
        r := Gave(e);
      case Release(id) =>
        var e := Delete(root, id);
        r := Gave(e);
    }
  }

  lemma {:induction false} ToldMore(calls: seq<Call>, replies: seq<Reply>, r: Reply)
    requires Told(calls, replies) && |replies| < |calls| && Right(Play(calls, replies), calls[|replies|], r)
    ensures Told(calls, replies + [r])
    ensures Play(calls, replies + [r]) == Turn(Play(calls, replies), calls[|replies|], r)
  {
    hide Right, Turn, Play;
    var told, n := replies + [r], |replies|;
    PlayMore(calls, replies, r);
    forall i | 0 <= i <= n ensures Right(Play(calls, told[..i]), calls[i], told[i]) {
      assert told[..i] == replies[..i];
      if i == n { assert replies[..n] == replies; } else { assert told[i] == replies[i]; }
    }
  }

  lemma {:induction false} PlayMore(calls: seq<Call>, replies: seq<Reply>, r: Reply)
    requires |replies| < |calls|
    ensures Play(calls, replies + [r]) == Turn(Play(calls, replies), calls[|replies|], r)
  {
    assert (replies + [r])[..|replies|] == replies;
  }

  /** Every call makes one more entry at most. */
  lemma {:induction false} PlaySmall(calls: seq<Call>, replies: seq<Reply>)
    requires |replies| <= |calls|
    ensures |Play(calls, replies)| <= |replies|
  {
    if replies != [] {
      var n := |replies| - 1;
      var M := Play(calls, replies[..n]);
      PlaySmall(calls, replies[..n]);
      TurnSmall(M, calls[n], replies[n]);
    }
  }

  lemma {:induction false} TurnSmall(M: map<nat, Entry>, c: Call, r: Reply)
    ensures |Turn(M, c, r)| <= |M| + 1
  {
    hide Slipping;
    if c.Alloc? && r.Got? {
      OneMore(M, if Slipping(M, c) then TWO64 + r.id else r.id, Item(c.item));
    } else if c.Release? {
      OneLess(M, c.id);
    }
  }

  lemma {:induction false} OneMore(M: map<nat, Entry>, k: nat, e: Entry)
    ensures |M[k := e]| <= |M| + 1
  {
    var M' := M[k := e];
    assert M'.Keys == M.Keys + {k} && |M| == |M.Keys| && |M'| == |M'.Keys|;
  }

  lemma {:induction false} OneLess(M: map<nat, Entry>, k: nat)
    ensures |M - {k}| <= |M|
  {
    var M' := M - {k};
    assert M'.Keys == M.Keys - {k} && |M| == |M.Keys| && |M'| == |M'.Keys|;
  }

  /** The IDR has the items that the calls so far add up to. */
  ghost predicate Going(root: RxRoot, calls: seq<Call>, replies: seq<Reply>)
    reads root, root.pool
  {
    Valid(root) && root.idr && Tidy(root.Now(), null) && Told(calls, replies) && root.items == Play(calls, replies)
  }

  lemma {:induction false} GoingStarts(root: RxRoot, calls: seq<Call>)
    requires Valid(root) && root.idr && root.items == map[] && Tidy(root.Now(), null)
    ensures Going(root, calls, [])
  {}

  lemma {:induction false} EmptyTrim(root: RxRoot)
    requires root.rnode == Null && root.pool == {} && root.items == map[]
    ensures Trim(root.Now(), root.items)
  {}

  /** The next call of a run. */
  method Next(root: RxRoot, mem: Allocator, calls: seq<Call>, before: seq<Reply>) returns (replies: seq<Reply>)
    requires |before| < |calls| <= LIMIT - TWO64 && Legal(calls[|before|]) && Going(root, calls, before)
    modifies root, root.pool, mem
    ensures fresh(root.pool - old(root.pool))
    ensures |replies| == |before| + 1 && Going(root, calls, replies)
    ensures mem.left <= old(mem.left) <= mem.left + PRELOAD_SIZE
    ensures NoMem in replies ==> NoMem in before || old(mem.left) < PRELOAD_SIZE
    ensures NoMem in before ==> NoMem in replies
    ensures NoMem !in replies && Trim(old(root.Now()), old(root.items)) ==> Trim(root.Now(), root.items)
  {
    hide RxRoot.Now, Valid, Good, Tidy, Slips, Right, Slipping, Turn, Play, Told, Legal, Roomy, Trim, Short;
    PlaySmall(calls, before);
    FewRoomy(root.items);
    var r := Do(root, mem, calls[|before|]);
    replies := before + [r];
    ToldMore(calls, before, r);
  }

  /**
   * Any run, with any allocator: all ids handed out by searches that did not slip were free and the lowest in their
   * range, and the IDR has exactly the items of the indices in use.
   */
  method Run(mem: Allocator, calls: seq<Call>) returns (root: RxRoot, replies: seq<Reply>)
    requires |calls| <= LIMIT - TWO64 && forall i :: 0 <= i < |calls| ==> Legal(calls[i])
    modifies mem
    ensures fresh(root) && fresh(root.pool) && |replies| == |calls| && Going(root, calls, replies)
    ensures old(mem.left) >= PRELOAD_SIZE * |calls| ==> NoMem !in replies
    ensures NoMem !in replies ==> Trim(root.Now(), root.items)
    ensures NoMem !in replies && root.items == map[] ==> root.rnode == Null && root.pool == {}
  {
    root := new RxRoot(true);
    EmptyIdr(root);
    EmptyTrim(root);
    replies := [];
    GoingStarts(root, calls);
    hide Going, Legal, Trim, RxRoot.Now;
    while |replies| < |calls|
      invariant NoMem !in replies ==> Trim(root.Now(), root.items)
      invariant fresh(root) && fresh(root.pool) && |replies| <= |calls| && Going(root, calls, replies)
      invariant old(mem.left) >= PRELOAD_SIZE * |calls| ==>
        NoMem !in replies && mem.left >= PRELOAD_SIZE * (|calls| - |replies|)
    {
      replies := Next(root, mem, calls, replies);
    }
    if NoMem !in replies && root.items == map[] { NothingLeft(root, calls, replies); }
  }

  /** An IDR without ids in use, and without failed allocations in its past, has no nodes. */
  lemma {:induction false} NothingLeft(root: RxRoot, calls: seq<Call>, replies: seq<Reply>)
    requires Going(root, calls, replies) && Trim(root.Now(), root.items) && root.items == map[]
    ensures root.rnode == Null && root.pool == {}
  {
    hide Lively, Lowered;
    root.Reads();
    SoundOf(root);
    TrimEmpty(root.Now());
  }

  /** An index stays in use until it is given back. */
  lemma {:induction false} StaysUsed(calls: seq<Call>, replies: seq<Reply>, id: nat, i: nat, j: nat)
    requires i <= j <= |replies| <= |calls| && id in Play(calls, replies[..i])
    requires forall m :: i <= m < j ==> calls[m] != Release(id)
    ensures id in Play(calls, replies[..j])
  {
    if i < j {
      StaysUsed(calls, replies, id, i, j - 1);
      assert replies[..j][..j - 1] == replies[..j - 1];
    }
  }

  /** If no search slips, the same id is handed out twice only if it was given back in between. */
  lemma {:induction false} LiveDistinct(calls: seq<Call>, replies: seq<Reply>, i: nat, j: nat)
    requires Told(calls, replies) && i < j < |replies| && replies[i].Got? && replies[j] == replies[i]
    requires !Slipping(Play(calls, replies[..i]), calls[i]) && !Slipping(Play(calls, replies[..j]), calls[j])
    ensures exists m :: i < m < j && calls[m] == Release(replies[i].id)
  {
    hide Slipping, Roomy;
    var id := replies[i].id;
    if forall m :: i < m < j ==> calls[m] != Release(id) {
      assert Right(Play(calls, replies[..i]), calls[i], replies[i]);
      assert Right(Play(calls, replies[..j]), calls[j], replies[j]);
      assert replies[..i + 1][..i] == replies[..i];
      StaysUsed(calls, replies, id, i + 1, j);
    }
  }
}
