/** Whole runs of calls on one tree, against the map and the tags that they add up to (radix-tree.c). */
module RxRun {
  import opened CTypes
  import opened RxModel
  import opened RxHeap
  import opened RxSteps
  import opened RxSnug
  import opened RxTree
  import opened RxInsert
  import opened RxTags
  import opened RxDelete

  datatype Call =
    | Put(index: nat, item: Val) | Get(index: nat) | Remove(index: nat)
    | Tag(index: nat, tag: nat) | Untag(index: nat, tag: nat) | HasTag(index: nat, tag: nat)

  datatype Reply = Did(r: Inserted) | Gave(entry: Entry) | Bit(b: bool)

  /** An ordinary map, and for each tag the set of indices that carry it. */
  datatype Book = Book(items: map<nat, Entry>, tagged: seq<iset<nat>>)

  /** One call, on the map. */
  ghost function Turn(b: Book, c: Call): Book {
    match c
    case Put(k, x) => if k in b.items then b else b.(items := b.items[k := Item(x)])
    case Remove(k) =>
      if k in b.items && |b.tagged| == 3 then Book(b.items - {k}, TagsAfter(b.tagged, k, false)) else b
    case Tag(k, t) => if k in b.items && t < |b.tagged| then b.(tagged := b.tagged[t := b.tagged[t] + iset{k}]) else b
    case Untag(k, t) => if t < |b.tagged| then b.(tagged := b.tagged[t := b.tagged[t] - iset{k}]) else b
    case _ => b
  }

  /** What a call returns, by the map; `lost` says that it was an insertion that got no memory. */
  ghost function Answer(b: Book, c: Call, lost: bool): Reply {
    match c
    case Put(k, _) => Did(if k in b.items then Exists else if lost then NoMemory else Ok)
    case HasTag(k, t) => Bit(t < |b.tagged| && k in b.tagged[t])
    case _ => Gave(At(b.items, c.index))
  }

  /** All calls but the lost ones, from the empty map on. */
  ghost function Play(calls: seq<Call>, lost: set<nat>): Book {
    if calls == [] then Book(map[], [iset{}, iset{}, iset{}])
    else
      var n := |calls| - 1;
      var b := Play(calls[..n], lost);
      if n in lost then b else Turn(b, calls[n])
  }

  /** What is lost later changes nothing now. */
  lemma {:induction false} PlayLocal(calls: seq<Call>, lost: set<nat>, n: nat)
    requires |calls| <= n
    ensures Play(calls, lost + {n}) == Play(calls, lost)
  {
    if calls != [] { PlayLocal(calls[..|calls| - 1], lost, n); }
  }

  /** Indices and tags are in range. */
  predicate Legal(c: Call) { c.index <= ULONG_MAX && (c.Tag? || c.Untag? || c.HasTag? ==> c.tag < 3) }

  /** One call, on the tree. What is not there must not be tagged: the caller looks first. */
  method Do(root: RxRoot, mem: Allocator, c: Call) returns (reply: Reply)
    requires Valid(root) && !root.idr && Legal(c)
    modifies root, root.pool, mem
    ensures Valid(root) && fresh(root.pool - old(root.pool))
    ensures Snug(old(root.Now()), Keys(old(root.items))) && reply != Did(NoMemory) ==>
      Snug(root.Now(), Keys(root.items))
    ensures var b, lost := old(Book(root.items, root.tagged)), reply == Did(NoMemory);
      reply == Answer(b, c, lost) && Book(root.items, root.tagged) == if lost then b else Turn(b, c)
    ensures mem.left <= old(mem.left) <= mem.left + PRELOAD_SIZE
    ensures reply == Did(NoMemory) ==> old(mem.left) < PRELOAD_SIZE
  {
    hide RxRoot.Now; hide Snug; hide Good;
    TagsThree(root);
    match c {
      case Put(k, x) =>
        var r := Insert(root, mem, k, x);
        reply := Did(r);
      case Get(k) =>
        var e := Lookup(root, k);
        reply := Gave(e);
      case Remove(k) =>
        var e := Delete(root, k);
        if k !in old(root.items) { assert root.items == old(root.items); }
        reply := Gave(e);
      case Tag(k, t) =>
        var e := Lookup(root, k);
        NoNullItem(root, k);
        if e != Null {
          e := TagSet(root, k, t);
          if Snug(old(root.Now()), Keys(root.items)) { SnugOf(old(root.Now()), root.Now(), Keys(root.items)); }
        }
        reply := Gave(e);
      case Untag(k, t) =>
        var e := TagClear(root, k, t);
        if Snug(old(root.Now()), Keys(root.items)) { SnugOf(old(root.Now()), root.Now(), Keys(root.items)); }
        reply := Gave(e);
      case HasTag(k, t) =>
        var b := TagGet(root, k, t);
        reply := Bit(b);
    }
  }

  lemma {:induction false} TagsThree(root: RxRoot)
    requires Valid(root)
    ensures |root.tagged| == 3
  {}

  lemma {:induction false} NoNullItem(root: RxRoot, k: nat)
    requires Valid(root) && !root.idr
    ensures At(root.items, k) == Null <==> k !in root.items
  {}

  /** A tree with no items and no nodes is canonical. */
  lemma {:induction false} EmptySnug(h: Shot)
    requires h.m == map[] && h.top == Null
    ensures Snug(h, Keys(map[]))
  {}

  /** The replies so far are what the map says, and the lost calls are the ones that got no memory. */
  ghost predicate Told(calls: seq<Call>, replies: seq<Reply>, lost: set<nat>) {
    && |replies| <= |calls|
    && (forall i :: 0 <= i < |replies| ==> replies[i] == Answer(Play(calls[..i], lost), calls[i], i in lost))
    && (forall i :: i in lost <==> 0 <= i < |replies| && replies[i] == Did(NoMemory))
  }

  lemma {:induction false} ToldMore(calls: seq<Call>, replies: seq<Reply>, lost: set<nat>, reply: Reply,
          lost': set<nat>)
    requires Told(calls, replies, lost) && |replies| < |calls|
    requires var n := |replies|;
      && reply == Answer(Play(calls[..n], lost), calls[n], reply == Did(NoMemory))
      && lost' == if reply == Did(NoMemory) then lost + {n} else lost
    ensures Told(calls, replies + [reply], lost')
    ensures var b := Play(calls[..|replies|], lost);
      Play(calls[..|replies| + 1], lost') == if reply == Did(NoMemory) then b else Turn(b, calls[|replies|])
  {
    hide Answer, Turn, Play;
    var n, told := |replies|, replies + [reply];
    PlaysLocal(calls, lost, n);
    PlayNext(calls, lost', n);
    forall i | 0 <= i <= n ensures told[i] == Answer(Play(calls[..i], lost'), calls[i], i in lost') {
      assert Play(calls[..i], lost') == Play(calls[..i], lost);
      if i < n { assert told[i] == replies[i]; }
    }
  }

  lemma {:induction false} PlaysLocal(calls: seq<Call>, lost: set<nat>, n: nat)
    requires n <= |calls|
    ensures forall i :: 0 <= i <= n ==> Play(calls[..i], lost + {n}) == Play(calls[..i], lost)
  {
    forall i | 0 <= i <= n
      ensures Play(calls[..i], lost + {n}) == Play(calls[..i], lost)
    {
      PlayLocal(calls[..i], lost, n);
    }
  }

  lemma {:induction false} PlayNext(calls: seq<Call>, lost: set<nat>, n: nat)
    requires n < |calls|
    ensures var b := Play(calls[..n], lost); Play(calls[..n + 1], lost) == if n in lost then b else Turn(b, calls[n])
  {
    assert calls[..n + 1][..n] == calls[..n];
  }

  /** The next call of a run. */
  method Next(root: RxRoot, mem: Allocator, calls: seq<Call>, replies: seq<Reply>, ghost lost: set<nat>)
    returns (reply: Reply, ghost lost': set<nat>)
    requires Valid(root) && !root.idr && |replies| < |calls| && Legal(calls[|replies|])
    requires Told(calls, replies, lost) && Book(root.items, root.tagged) == Play(calls[..|replies|], lost)
    modifies root, root.pool, mem
    ensures Valid(root) && fresh(root.pool - old(root.pool))
    ensures Told(calls, replies + [reply], lost')
      && Book(root.items, root.tagged) == Play(calls[..|replies| + 1], lost')
    ensures mem.left <= old(mem.left) <= mem.left + PRELOAD_SIZE
    ensures old(mem.left) >= PRELOAD_SIZE ==>
      lost' == lost && (Snug(old(root.Now()), Keys(old(root.items))) ==> Snug(root.Now(), Keys(root.items)))
  {
    hide RxRoot.Now, Valid, Snug, Good, Turn, Legal, Answer, Play, Told, Keys;
    reply := Do(root, mem, calls[|replies|]);
    lost' := if reply == Did(NoMemory) then lost + {|replies|} else lost;
    ToldMore(calls, replies, lost, reply, lost');
  }

  /**
   * Any run, with any allocator: every call returns what the map says, and the tree stands for the
   * map that the calls add up to. Only an insertion can be lost, and none is if there is memory
   * enough; then the tree is canonical as well.
   */
  method Run(mem: Allocator, calls: seq<Call>) returns (root: RxRoot, replies: seq<Reply>, ghost lost: set<nat>)
    requires forall i :: 0 <= i < |calls| ==> Legal(calls[i])
    modifies mem
    ensures fresh(root) && fresh(root.pool) && Valid(root) && !root.idr
    ensures |replies| == |calls| && Told(calls, replies, lost)
    ensures Book(root.items, root.tagged) == Play(calls, lost)
    ensures old(mem.left) >= PRELOAD_SIZE * |calls| ==> lost == {} && Snug(root.Now(), Keys(root.items))
  {
    root := new RxRoot(false);
    EmptyGood(root);
    hide RxRoot.Now, Valid, Snug, Good, Turn, Legal, Answer, Play, Told, Keys;
    replies, lost := [], {};
    ToldNone(calls);
    for n := 0 to |calls|
      invariant fresh(root) && fresh(root.pool) && Valid(root) && !root.idr
      invariant |replies| == n && Told(calls, replies, lost) && Book(root.items, root.tagged) == Play(calls[..n], lost)
      invariant old(mem.left) >= PRELOAD_SIZE * |calls| ==>
        lost == {} && Snug(root.Now(), Keys(root.items)) && mem.left >= PRELOAD_SIZE * (|calls| - n)
    {
      var reply;
      reply, lost := Next(root, mem, calls, replies, lost);
      replies := replies + [reply];
    }
    assert calls[..|calls|] == calls;
  }

  lemma {:induction false} ToldNone(calls: seq<Call>)
    ensures Told(calls, [], {}) && Play(calls[..0], {}) == Book(map[], [iset{}, iset{}, iset{}])
  {}

  lemma {:induction false} EmptyGood(root: RxRoot)
    requires root.rnode == Null && root.pool == {} && root.tags == {} && !root.idr
    requires root.items == map[] && root.tagged == [iset{}, iset{}, iset{}]
    ensures Valid(root) && Snug(root.Now(), Keys(root.items))
  {
    EmptySnug(root.Now());
  }

  /** Two histories that add up to maps with the same indices leave trees of the same shape. */
  method TwoHistories(mem: Allocator, calls: seq<Call>, calls': seq<Call>) returns (root: RxRoot, root': RxRoot)
    requires forall i :: 0 <= i < |calls| ==> Legal(calls[i])
    requires forall i :: 0 <= i < |calls'| ==> Legal(calls'[i])
    requires mem.left >= PRELOAD_SIZE * |calls|
    requires Play(calls, {}).items.Keys == Play(calls', {}).items.Keys
    modifies mem
    ensures Book(root.items, root.tagged) == Play(calls, {}) && Book(root'.items, root'.tagged) == Play(calls', {})
    ensures Shape(root.Now()) == Shape(root'.Now())
  {
    hide RxRoot.Now; hide Snug; hide Good; hide Play; hide Answer;
    var replies, replies';
    ghost var lost, lost';
    root, replies, lost := Run(mem, calls);
    var more := new Allocator(PRELOAD_SIZE * |calls'|);
    root', replies', lost' := Run(more, calls');
    ValidParts(root);
    ValidParts(root');
    SameShape(root.Now(), root.items, root'.Now(), root'.items);
  }
}
