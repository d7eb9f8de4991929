/**
 * The lock-less list as a step machine: any number of threads, one memory access per
 * step (llist.c:45-88, llist.h:6-39, llist.h:202-243).
 */
module Llist {
  import opened Seqs

  datatype Ptr = Null | To(n: nat)

  /** Who may write a node: nobody while it is in the list, else one thread. */
  datatype Owner = InList | Held(t: nat)

  /** Where a thread is. The chain is the batch from new_first to new_last; the other fields are its local variables. */
  datatype Pc =
    | Idle
    | AddLoad(chain: seq<nat>)
    | AddStore(chain: seq<nat>, first: Ptr)
    | AddSwap(chain: seq<nat>, first: Ptr)
    | DelLoad
    | DelRead(entry: nat)
    | DelSwap(entry: nat, next: Ptr)

  /** Memory (head->first and all next fields), the owners and the threads. */
  datatype Conf = Conf(first: Ptr, next: map<nat, Ptr>, owner: map<nat, Owner>, pc: map<nat, Pc>)

  /** What a thread does next: client code, a call, or the next step of the call it is in. */
  datatype Act = Write(n: nat, p: Ptr) | CallAdd(chain: seq<nat>) | CallDelFirst | DelAll | Run

  /** What a step returns to its caller, if anything. */
  datatype Event = Silent | Added(chain: seq<nat>, wasEmpty: bool) | Popped(entry: nat) | FoundEmpty | Taken(list: Ptr)

  function NextOf(c: Conf, n: nat): Ptr { if n in c.next then c.next[n] else Null }

  /** The batch is linked from its first to its last node. */
  ghost predicate Linked(next: map<nat, Ptr>, s: seq<nat>) {
    forall i :: 0 <= i < |s| - 1 ==> s[i] in next && next[s[i]] == To(s[i + 1])
  }

  ghost predicate Owns(c: Conf, t: nat, s: seq<nat>) { forall n :: n in s ==> n in c.owner && c.owner[n] == Held(t) }

  ghost predicate ChainOk(c: Conf, t: nat, s: seq<nat>) { s != [] && NoDup(s) && Owns(c, t, s) && Linked(c.next, s) }

  predicate InAdd(p: Pc) { p.AddLoad? || p.AddStore? || p.AddSwap? }

  predicate InDelFirst(p: Pc) { p.DelLoad? || p.DelRead? || p.DelSwap? }

  /** A thread may touch only nodes that it owns, and runs one call at a time. */
  ghost predicate MayAct(c: Conf, t: nat, a: Act) {
    t in c.pc &&
    match a
    case Write(n, p) => c.pc[t].Idle? && n in c.owner && c.owner[n] == Held(t)
    case CallAdd(chain) => c.pc[t].Idle? && ChainOk(c, t, chain)
    case CallDelFirst => c.pc[t].Idle?
    case DelAll => c.pc[t].Idle?
    case Run => !c.pc[t].Idle?
  }

  /** The L entries of the table: no other consumer runs while a thread is in llist_del_first. */
  ghost predicate Locked(c: Conf, t: nat, a: Act) {
    a.CallDelFirst? || a.DelAll? ==> forall u :: u in c.pc ==> !InDelFirst(c.pc[u])
  }

  function Give(owner: map<nat, Owner>, s: seq<nat>, o: Owner): map<nat, Owner> {
    map n | n in owner :: if n in s then o else owner[n]
  }

  /** The nodes in the list, which llist_del_all hands over to thread t. */
  function TakeAll(owner: map<nat, Owner>, t: nat): map<nat, Owner> {
    map n | n in owner :: if owner[n].InList? then Held(t) else owner[n]
  }

  /** One step of thread t. */
  function Exec(c: Conf, t: nat, a: Act): (Conf, Event)
    requires t in c.pc
  {
    match a
    case Write(n, p) => (c.(next := c.next[n := p]), Silent)
    case CallAdd(chain) => (c.(pc := c.pc[t := AddLoad(chain)]), Silent)
    case CallDelFirst => (c.(pc := c.pc[t := DelLoad]), Silent)
    case DelAll => (c.(first := Null, owner := TakeAll(c.owner, t)), Taken(c.first))
    case Run => RunStep(c, t)
  }

  function RunStep(c: Conf, t: nat): (Conf, Event)
    requires t in c.pc
  {
    match c.pc[t]
    case Idle => (c, Silent)
    // llist_add_batch
    case AddLoad(chain) => (c.(pc := c.pc[t := AddStore(chain, c.first)]), Silent)
    case AddStore(chain, first) =>
      if chain == [] then (c, Silent)
      else (c.(next := c.next[chain[|chain| - 1] := first], pc := c.pc[t := AddSwap(chain, first)]), Silent)
    case AddSwap(chain, first) =>
      if c.first == first && chain != [] then
        (c.(first := To(chain[0]), owner := Give(c.owner, chain, InList), pc := c.pc[t := Idle]),
            Added(chain, first == Null))
      else (c.(pc := c.pc[t := AddLoad(chain)]), Silent)
    // llist_del_first
    case DelLoad => DelGot(c, t, c.first)
    case DelRead(entry) => (c.(pc := c.pc[t := DelSwap(entry, NextOf(c, entry))]), Silent)
    case DelSwap(entry, next) =>
      if c.first == To(entry) then
        (c.(first := next, owner := Give(c.owner, [entry], Held(t)), pc := c.pc[t := Idle]), Popped(entry))
      else DelGot(c, t, c.first)
  }

  /** The top of the loop in llist_del_first, right after `entry` was loaded. */
  function DelGot(c: Conf, t: nat, entry: Ptr): (Conf, Event) {
    match entry
    case Null => (c.(pc := c.pc[t := Idle]), FoundEmpty)
    case To(n) => (c.(pc := c.pc[t := DelRead(n)]), Silent)
  }

  // ---- the abstract stack ----

  /** Following next from p visits exactly s and ends at NULL. */
  ghost predicate Links(next: map<nat, Ptr>, p: Ptr, s: seq<nat>)
    decreases s
  {
    if s == [] then p == Null else p == To(s[0]) && s[0] in next && Links(next, next[s[0]], s[1..])
  }

  /** What an atomic stack does on each event; silent steps do nothing. */
  ghost predicate StackStep(a: seq<nat>, a': seq<nat>, e: Event) {
    match e
    case Silent => a' == a
    case Added(chain, wasEmpty) => a' == chain + a && chain != [] && wasEmpty == (a == [])
    case Popped(x) => a == [x] + a'
    case FoundEmpty => a == [] && a' == []
    case Taken(p) => a' == [] && p == if a == [] then Null else To(a[0])
  }

  /** What is known about a thread. */
  ghost predicate PcOk(c: Conf, a: seq<nat>, t: nat) {
    t in c.pc &&
    match c.pc[t]
    case Idle => true
    case AddLoad(chain) => ChainOk(c, t, chain)
    case AddStore(chain, _) => ChainOk(c, t, chain)
    case AddSwap(chain, first) => ChainOk(c, t, chain) && NextOf(c, chain[|chain| - 1]) == first
    case DelLoad => true
    case DelRead(entry) => entry in a
    case DelSwap(entry, next) => entry in a && NextOf(c, entry) == next
  }

  ghost predicate OneConsumer(c: Conf) {
    forall t, u :: t in c.pc && u in c.pc && InDelFirst(c.pc[t]) && InDelFirst(c.pc[u]) ==> t == u
  }

  /** Memory holds the stack a; every node is either in it, once, or held by one thread. */
  ghost predicate Stored(c: Conf, a: seq<nat>) {
    && Links(c.next, c.first, a) && NoDup(a) && c.owner.Keys == c.next.Keys
    && (forall n :: n in a ==> n in c.owner && c.owner[n].InList?)
    && (forall n :: n in c.owner && c.owner[n].InList? ==> n in a)
  }

  ghost predicate Inv(c: Conf, a: seq<nat>) {
    Stored(c, a) && OneConsumer(c) && forall t :: t in c.pc ==> PcOk(c, a, t)
  }

  // ---- lists ----

  lemma {:induction false} LinksFrame(m: map<nat, Ptr>, m': map<nat, Ptr>, p: Ptr, s: seq<nat>)
    requires Links(m, p, s) && forall n :: n in s && n in m ==> n in m' && m'[n] == m[n]
    ensures Links(m', p, s)
    decreases s
  {
    if s != [] {
      assert forall n :: n in s[1..] ==> n in s;
      LinksFrame(m, m', m[s[0]], s[1..]);
    }
  }

  lemma {:induction false} LinksIn(m: map<nat, Ptr>, p: Ptr, s: seq<nat>)
    requires Links(m, p, s)
    ensures forall n :: n in s ==> n in m
    decreases s
  {
    if s != [] {
      LinksIn(m, m[s[0]], s[1..]);
      forall n | n in s ensures n in m { if n != s[0] { assert n in s[1..]; } }
    }
  }

  /** A batch whose last node points at the list extends the list. */
  lemma {:induction false} LinksConcat(m: map<nat, Ptr>, s: seq<nat>, p: Ptr, a: seq<nat>)
    requires s != [] && Linked(m, s) && s[|s| - 1] in m && m[s[|s| - 1]] == p && Links(m, p, a)
    ensures Links(m, To(s[0]), s + a)
  {
    assert (s + a)[1..] == s[1..] + a;
    if |s| > 1 {
      forall i | 0 <= i < |s[1..]| - 1 ensures s[1..][i] in m && m[s[1..][i]] == To(s[1..][i + 1]) {
        assert s[1..][i] == s[i + 1] && s[1..][i + 1] == s[i + 2];
      }
      LinksConcat(m, s[1..], p, a);
      assert m[s[0]] == To(s[1]);
    } else {
      assert s[1..] + a == a;
    }
  }

  /** A pointer leads to one list only. */
  lemma {:induction false} LinksUnique(m: map<nat, Ptr>, p: Ptr, s: seq<nat>, s': seq<nat>)
    requires Links(m, p, s) && Links(m, p, s')
    ensures s == s'
    decreases s
  {
    if s != [] && s' != [] {
      LinksUnique(m, m[s[0]], s[1..], s'[1..]);
      assert s == [s[0]] + s[1..] && s' == [s'[0]] + s'[1..];
    }
  }

  /** The new first pointer of a pop is right exactly when it is what the first node still points at. */
  lemma {:induction false} PopExact(m: map<nat, Ptr>, p: Ptr, a: seq<nat>, next: Ptr)
    requires Links(m, p, a) && a != []
    ensures Links(m, next, a[1..]) <==> m[a[0]] == next
  {
    if Links(m, next, a[1..]) {
      assert Links(m, m[a[0]], a[1..]);
    }
  }

  // ---- one step ----

  /** Other threads do not notice changes outside what they own and outside the list. */
  lemma {:induction false} PcFrame(c: Conf, c': Conf, a: seq<nat>, a': seq<nat>, u: nat)
    requires PcOk(c, a, u) && u in c'.pc && c'.pc[u] == c.pc[u] && c.owner.Keys <= c.next.Keys
    requires forall n :: n in c.owner && c.owner[n] == Held(u) ==>
      n in c'.owner && c'.owner[n] == Held(u) && n in c'.next && c'.next[n] == c.next[n]
    requires InDelFirst(c.pc[u]) ==>
      forall n :: n in a ==> n in a' && n in c.next && n in c'.next && c'.next[n] == c.next[n]
    ensures PcOk(c', a', u)
  {
    match c.pc[u]
    case AddLoad(chain) => ChainFrame(c, c', u, chain);
    case AddStore(chain, _) => ChainFrame(c, c', u, chain);
    case AddSwap(chain, _) =>
      ChainFrame(c, c', u, chain);
      assert chain[|chain| - 1] in chain;
    case _ =>
  }

  lemma {:induction false} ChainFrame(c: Conf, c': Conf, u: nat, s: seq<nat>)
    requires ChainOk(c, u, s)
    requires forall n :: n in c.owner && c.owner[n] == Held(u) ==>
      n in c'.owner && c'.owner[n] == Held(u) && n in c'.next && (n in c.next ==> c'.next[n] == c.next[n])
    ensures ChainOk(c', u, s)
  {
    forall i | 0 <= i < |s| - 1 ensures s[i] in c'.next && c'.next[s[i]] == To(s[i + 1]) {
      assert s[i] in s;
    }
  }

  /** A step of client code on a node of its own. */
  lemma {:induction false} WriteStep(c: Conf, a: seq<nat>, t: nat, n: nat, p: Ptr)
    requires Inv(c, a) && MayAct(c, t, Write(n, p))
    ensures Inv(Exec(c, t, Write(n, p)).0, a)
  {
    var c' := Exec(c, t, Write(n, p)).0;
    LinksFrame(c.next, c'.next, c.first, a);
    forall u | u in c'.pc ensures PcOk(c', a, u) {
      if u != t { PcFrame(c, c', a, a, u); }
    }
  }

  lemma {:induction false} CallStep(c: Conf, a: seq<nat>, t: nat, act: Act)
    requires Inv(c, a) && MayAct(c, t, act) && Locked(c, t, act) && (act.CallAdd? || act.CallDelFirst?)
    ensures Inv(Exec(c, t, act).0, a)
  {
    LocalStep(c, Exec(c, t, act).0, a, t);
  }

  /** A step that changes nothing but the thread's own program counter. */
  lemma {:induction false} LocalStep(c: Conf, c': Conf, a: seq<nat>, t: nat)
    requires Inv(c, a) && t in c.pc && t in c'.pc && c' == c.(pc := c.pc[t := c'.pc[t]])
    requires PcOk(c', a, t)
    requires InDelFirst(c'.pc[t]) ==> InDelFirst(c.pc[t]) || forall u :: u in c.pc ==> !InDelFirst(c.pc[u])
    ensures Inv(c', a)
  {
    LinksIn(c.next, c.first, a);
    forall u | u in c'.pc ensures PcOk(c', a, u) {
      if u != t { PcFrame(c, c', a, a, u); }
    }
  }

  /** new_last->next = first */
  lemma {:induction false} StoreStep(c: Conf, a: seq<nat>, t: nat)
    requires Inv(c, a) && t in c.pc && c.pc[t].AddStore?
    ensures Inv(RunStep(c, t).0, a)
  {
    var chain := c.pc[t].chain;
    var c', last := RunStep(c, t).0, chain[|chain| - 1];
    assert PcOk(c, a, t) && last in chain;
    LinksFrame(c.next, c'.next, c.first, a);
    LinksIn(c.next, c.first, a);
    forall u | u in c'.pc ensures PcOk(c', a, u) {
      if u != t {
        PcFrame(c, c', a, a, u);
      } else {
        forall i | 0 <= i < |chain| - 1 ensures chain[i] in c'.next && c'.next[chain[i]] == To(chain[i + 1]) {}
      }
    }
  }

  /** A successful cmpxchg in llist_add_batch pushes the batch. */
  lemma {:induction false} PushStep(c: Conf, a: seq<nat>, t: nat)
    requires Inv(c, a) && t in c.pc && c.pc[t].AddSwap? && c.first == c.pc[t].first
    ensures Inv(RunStep(c, t).0, c.pc[t].chain + a) && c.pc[t].chain != []
    ensures (c.first == Null) == (a == [])
  {
    var chain, c' := c.pc[t].chain, RunStep(c, t).0;
    assert PcOk(c, a, t) && chain[|chain| - 1] in chain;
    forall n | n in chain ensures n !in a { assert c.owner[n] == Held(t); }
    NoDupConcat(chain, a);
    LinksConcat(c.next, chain, c.first, a);
    LinksIn(c.next, c.first, a);
    forall u | u in c'.pc ensures PcOk(c', chain + a, u) {
      if u != t { PcFrame(c, c', a, chain + a, u); }
    }
  }

  /** A successful cmpxchg in llist_del_first still sees the next it read, and pops. */
  lemma {:induction false} PopStep(c: Conf, a: seq<nat>, t: nat)
    requires Inv(c, a) && t in c.pc && c.pc[t].DelSwap? && c.first == To(c.pc[t].entry)
    ensures a != [] && a[0] == c.pc[t].entry && c.next[a[0]] == c.pc[t].next
    ensures Inv(RunStep(c, t).0, a[1..])
  {
    var c', x := RunStep(c, t).0, c.pc[t].entry;
    assert PcOk(c, a, t);
    LinksIn(c.next, c.first, a);
    assert Links(c.next, c.next[x], a[1..]);
    forall n | n in a[1..] ensures n in a && n != x {}
    forall n | n in a && n != x ensures n in a[1..] { assert n in [a[0]] + a[1..]; }
    forall u | u in c'.pc ensures PcOk(c', a[1..], u) {
      if u != t {
        assert PcOk(c, a, u) && !InDelFirst(c.pc[u]);
        PcFrame(c, c', a, a[1..], u);
      }
    }
  }

  /** xchg(&head->first, NULL) */
  lemma {:induction false} TakeStep(c: Conf, a: seq<nat>, t: nat)
    requires Inv(c, a) && MayAct(c, t, DelAll) && Locked(c, t, DelAll)
    ensures Inv(Exec(c, t, DelAll).0, [])
    ensures c.first == if a == [] then Null else To(a[0])
  {
    var c' := Exec(c, t, DelAll).0;
    forall u | u in c'.pc ensures PcOk(c', [], u) {
      assert PcOk(c, a, u) && !InDelFirst(c.pc[u]);
      PcFrame(c, c', a, [], u);
    }
  }

  /** The value that llist_del_first loaded is the newest entry, or there is none. */
  lemma {:induction false} GotStep(c: Conf, a: seq<nat>, t: nat)
    requires Inv(c, a) && t in c.pc && InDelFirst(c.pc[t])
    ensures var r := DelGot(c, t, c.first); Inv(r.0, a) && StackStep(a, a, r.1)
  {
    var c' := DelGot(c, t, c.first).0;
    if c.first.To? { assert a[0] in a; }
    LocalStep(c, c', a, t);
  }

  /** Every step of every thread is either invisible or one operation of an atomic stack. */
  lemma {:induction false} StepRefines(c: Conf, a: seq<nat>, t: nat, act: Act) returns (a': seq<nat>)
    requires Inv(c, a) && MayAct(c, t, act) && Locked(c, t, act)
    ensures var r := Exec(c, t, act); Inv(r.0, a') && StackStep(a, a', r.1)
  {
    hide Inv, Locked, ChainOk;
    a' := a;
    match act
    case Write(n, p) => WriteStep(c, a, t, n, p);
    case CallAdd(_) => CallStep(c, a, t, act);
    case CallDelFirst => CallStep(c, a, t, act);
    case DelAll => TakeStep(c, a, t); a' := [];
    case Run => a' := RunRefines(c, a, t);
  }

  lemma {:induction false} RunRefines(c: Conf, a: seq<nat>, t: nat) returns (a': seq<nat>)
    requires Inv(c, a) && t in c.pc && !c.pc[t].Idle?
    ensures var r := RunStep(c, t); Inv(r.0, a') && StackStep(a, a', r.1)
  {
    hide Stored;
    a' := a;
    assert PcOk(c, a, t);
    match c.pc[t]
    case AddLoad(_) => LocalStep(c, RunStep(c, t).0, a, t);
    case AddStore(chain, _) => StoreStep(c, a, t); ChainSome(c, t, chain);
    case AddSwap(chain, first) =>
      ChainSome(c, t, chain);
      if c.first == first {
        PushStep(c, a, t);
        a' := chain + a;
      } else {
        LocalStep(c, RunStep(c, t).0, a, t);
      }
    case DelLoad => GotStep(c, a, t);
    case DelRead(_) => LocalStep(c, RunStep(c, t).0, a, t);
    case DelSwap(entry, _) =>
      if c.first == To(entry) {
        PopStep(c, a, t);
        a' := a[1..];
      } else {
        GotStep(c, a, t);
      }
  }

  lemma {:induction false} ChainSome(c: Conf, t: nat, s: seq<nat>)
    requires ChainOk(c, t, s)
    ensures s != []
  {}

  // ---- whole runs ----

  /** An empty list, idle threads, and every node held by some thread. */
  ghost predicate Init(c: Conf) {
    && c.first == Null && c.owner.Keys == c.next.Keys
    && (forall n :: n in c.owner ==> c.owner[n].Held?) && forall t :: t in c.pc ==> c.pc[t].Idle?
  }

  datatype Move = Move(t: nat, act: Act)

  /** cs is an execution of `moves`, and es its events. */
  ghost predicate Runs(cs: seq<Conf>, moves: seq<Move>, es: seq<Event>) {
    && |cs| == |moves| + 1 && |es| == |moves|
    && forall i :: 0 <= i < |moves| ==>
      MayAct(cs[i], moves[i].t, moves[i].act) && Exec(cs[i], moves[i].t, moves[i].act) == (cs[i + 1], es[i])
  }

  /** The execution keeps to the table. */
  ghost predicate KeepsTable(cs: seq<Conf>, moves: seq<Move>) {
    forall i :: 0 <= i < |moves| && i < |cs| ==> Locked(cs[i], moves[i].t, moves[i].act)
  }

  /** In every interleaving the events are those of an atomic stack, and memory always holds that stack. */
  lemma {:induction false} Refines(cs: seq<Conf>, moves: seq<Move>, es: seq<Event>) returns (stacks: seq<seq<nat>>)
    requires Runs(cs, moves, es) && KeepsTable(cs, moves) && Init(cs[0])
    ensures |stacks| == |cs| && stacks[0] == []
    ensures forall i :: 0 <= i < |cs| ==> Inv(cs[i], stacks[i])
    ensures forall i :: 0 <= i < |es| ==> StackStep(stacks[i], stacks[i + 1], es[i])
  {
    hide Locked, MayAct, Stored, StackStep;
    StartStored(cs[0]);
    stacks := [[]];
    while |stacks| < |cs|
      invariant 0 < |stacks| <= |cs| && stacks[0] == []
      invariant forall i :: 0 <= i < |stacks| ==> Inv(cs[i], stacks[i])
      invariant forall i :: 0 <= i < |stacks| - 1 ==> StackStep(stacks[i], stacks[i + 1], es[i])
    {
      var i := |stacks| - 1;
      var a := StepRefines(cs[i], stacks[i], moves[i].t, moves[i].act);
      stacks := stacks + [a];
    }
  }

  lemma {:induction false} StartStored(c: Conf)
    requires Init(c)
    ensures Inv(c, [])
  {}

  // ---- where the nodes are ----

  /** In the list, in the batch of a thread that is in llist_add_batch, or loose in the hands of a thread. */
  datatype Place = OnList | InBatch(t: nat) | Loose(t: nat)

  /** The batch that a thread is about to add. */
  function Pending(p: Pc): seq<nat> { if InAdd(p) then p.chain else [] }

  ghost predicate IsAt(c: Conf, a: seq<nat>, n: nat, p: Place) {
    match p
    case OnList => n in a
    case InBatch(t) => t in c.pc && n in Pending(c.pc[t])
    case Loose(t) =>
      && n in c.owner && c.owner[n] == Held(t) && n !in a
      && forall u :: u in c.pc ==> n !in Pending(c.pc[u])
  }

  /** No node is lost, and none is in two places. */
  lemma {:induction false} OnePlace(c: Conf, a: seq<nat>, n: nat) returns (p: Place)
    requires Inv(c, a)
    ensures n in c.next ==> IsAt(c, a, n, p)
    ensures forall q :: IsAt(c, a, n, q) ==> n in c.next && q == p
  {
    hide Links;
    assert forall t :: t in c.pc ==> PcOk(c, a, t);
    if n in a { p := OnList; return; }
    if t :| t in c.pc && n in Pending(c.pc[t]) { p := InBatch(t); return; }
    p := if n in c.owner && c.owner[n].Held? then Loose(c.owner[n].t) else OnList;
  }

  /** How a step of thread t moves node n: into the batch of a call, with it into the list, and out again to t. */
  function Moved(n: nat, p: Place, t: nat, act: Act, e: Event): Place {
    match e
    case Added(chain, _) => if n in chain then OnList else p
    case Popped(x) => if n == x then Loose(t) else p
    case Taken(_) => if p.OnList? then Loose(t) else p
    case _ => if act.CallAdd? && n in act.chain then InBatch(t) else p
  }

  /** A step that leaves list, owners and batches alone. */
  lemma {:induction false} NodesRest(c: Conf, c': Conf, a: seq<nat>, t: nat, n: nat, p: Place)
    requires IsAt(c, a, n, p) && c'.owner == c.owner && t in c.pc && t in c'.pc && c'.pc == c.pc[t := c'.pc[t]]
    requires Pending(c'.pc[t]) == Pending(c.pc[t])
    ensures IsAt(c', a, n, p)
  {}

  lemma {:induction false} NodesCalled(c: Conf, a: seq<nat>, t: nat, chain: seq<nat>, n: nat, p: Place)
    requires Inv(c, a) && MayAct(c, t, CallAdd(chain)) && IsAt(c, a, n, p)
    ensures IsAt(Exec(c, t, CallAdd(chain)).0, a, n, if n in chain then InBatch(t) else p)
    ensures n in chain ==> p == Loose(t)
  {
    hide Links, Linked;
    if n in chain && p.InBatch? { BatchHeld(c, a, p.t, n); }
  }

  lemma {:induction false} BatchHeld(c: Conf, a: seq<nat>, t: nat, n: nat)
    requires PcOk(c, a, t) && n in Pending(c.pc[t])
    ensures n in c.owner && c.owner[n] == Held(t)
  {}

  lemma {:induction false} NodesPushed(c: Conf, a: seq<nat>, t: nat, n: nat, p: Place)
    requires Inv(c, a) && t in c.pc && c.pc[t].AddSwap? && c.first == c.pc[t].first && IsAt(c, a, n, p)
    ensures var chain := c.pc[t].chain;
      IsAt(RunStep(c, t).0, chain + a, n, if n in chain then OnList else p) && (n in chain ==> p == InBatch(t))
  {
    hide Links, Linked;
    assert PcOk(c, a, t);
    var chain := c.pc[t].chain;
    if n in chain { BatchHeld(c, a, t, n); if p.InBatch? { BatchHeld(c, a, p.t, n); } }
  }

  lemma {:induction false} NodesPopped(c: Conf, a: seq<nat>, t: nat, n: nat, p: Place)
    requires Inv(c, a) && t in c.pc && c.pc[t].DelSwap? && c.first == To(c.pc[t].entry) && IsAt(c, a, n, p)
    ensures a != [] && a[0] == c.pc[t].entry
    ensures IsAt(RunStep(c, t).0, a[1..], n, if n == a[0] then Loose(t) else p) && (n == a[0] ==> p == OnList)
  {
    PopStep(c, a, t);
    hide Links, Linked;
    assert a == [a[0]] + a[1..];
    if n == a[0] {
      forall u | u in c.pc ensures n !in Pending(c.pc[u]) { if n in Pending(c.pc[u]) { BatchHeld(c, a, u, n); } }
    }
  }

  lemma {:induction false} NodesTaken(c: Conf, a: seq<nat>, t: nat, n: nat, p: Place)
    requires Inv(c, a) && MayAct(c, t, DelAll) && IsAt(c, a, n, p)
    ensures IsAt(Exec(c, t, DelAll).0, [], n, if p.OnList? then Loose(t) else p)
  {
    hide Links, Linked;
    if p.OnList? {
      forall u | u in c.pc ensures n !in Pending(c.pc[u]) { if n in Pending(c.pc[u]) { BatchHeld(c, a, u, n); } }
    }
  }

  /** The stack after a step is the one that memory holds. */
  lemma {:induction false} NextStack(c: Conf, a: seq<nat>, t: nat, act: Act, a': seq<nat>)
    requires Inv(c, a) && MayAct(c, t, act) && Locked(c, t, act) && Inv(Exec(c, t, act).0, a')
    ensures StackStep(a, a', Exec(c, t, act).1)
  {
    hide Locked, StackStep, Exec;
    var r := Exec(c, t, act);
    var b := StepRefines(c, a, t, act);
    LinksUnique(r.0.next, r.0.first, a', b);
  }

  /** The steps inside a call. */
  lemma {:induction false} NodesRun(c: Conf, a: seq<nat>, t: nat, a': seq<nat>, n: nat, p: Place)
    requires Inv(c, a) && t in c.pc && !c.pc[t].Idle? && IsAt(c, a, n, p) && StackStep(a, a', RunStep(c, t).1)
    ensures var r := RunStep(c, t);
      && IsAt(r.0, a', n, Moved(n, p, t, Run, r.1))
      && (r.1.Added? && n in r.1.chain ==> p == InBatch(t))
      && (r.1.Popped? && n == r.1.entry ==> p == OnList)
  {
    hide Inv, IsAt;
    var r := RunStep(c, t);
    if r.1.Added? {
      NodesPushed(c, a, t, n, p);
    } else if r.1.Popped? {
      NodesPopped(c, a, t, n, p);
      assert a[1..] == a';
    } else {
      NodesRest(c, r.0, a, t, n, p);
    }
  }

  /** A node stays where it is but for the steps that move it, and these take it from the place before. */
  lemma {:induction false} NodesMove(c: Conf, a: seq<nat>, t: nat, act: Act, a': seq<nat>, n: nat, p: Place)
    requires Inv(c, a) && MayAct(c, t, act) && Locked(c, t, act) && Inv(Exec(c, t, act).0, a') && IsAt(c, a, n, p)
    ensures var r := Exec(c, t, act);
      && IsAt(r.0, a', n, Moved(n, p, t, act, r.1))
      && (r.1.Added? && n in r.1.chain ==> p == InBatch(t))
      && (r.1.Popped? && n == r.1.entry ==> p == OnList)
      && (act.CallAdd? && n in act.chain ==> p == Loose(t))
  {
    NextStack(c, a, t, act, a');
    hide Inv, IsAt, ChainOk, RunStep, Locked;
    match act
    case Write(_, _) => assert c.pc == c.pc[t := c.pc[t]]; NodesRest(c, Exec(c, t, act).0, a, t, n, p);
    case CallAdd(chain) => NodesCalled(c, a, t, chain, n, p);
    case CallDelFirst => NodesRest(c, Exec(c, t, act).0, a, t, n, p);
    case DelAll => NodesTaken(c, a, t, n, p);
    case Run => NodesRun(c, a, t, a', n, p);
  }

  /** llist_add returns true exactly when it turns an empty list into a non-empty one. */
  lemma {:induction false} AddReturns(c: Conf, a: seq<nat>, t: nat, act: Act, a': seq<nat>)
    requires Inv(c, a) && MayAct(c, t, act) && Exec(c, t, act).1.Added? && Inv(Exec(c, t, act).0, a')
    ensures Exec(c, t, act).1.wasEmpty <==> a == [] && a' != []
  {
    assert PcOk(c, a, t);
    PushStep(c, a, t);
    LinksUnique(c.next, To(c.pc[t].chain[0]), a', c.pc[t].chain + a);
  }

  /** What llist_del_all returns is the whole list, newest entry first, and the caller owns it. */
  lemma {:induction false} DelAllReturns(c: Conf, a: seq<nat>, t: nat)
    requires Inv(c, a) && MayAct(c, t, DelAll)
    ensures var r := Exec(c, t, DelAll); r.1.Taken? && Links(r.0.next, r.1.list, a) && Owns(r.0, t, a)
  {}

  // ---- how calls end ----

  /**
   * A call goes on until it has its answer, and ends with it: llist_add_batch when its batch is in the list,
   * llist_del_first with the entry that it has taken or when there was none. No step touches another thread's call.
   */
  lemma {:induction false} CallEnds(c: Conf, a: seq<nat>, t: nat)
    requires Inv(c, a) && MayAct(c, t, Run)
    ensures var (c', e) := Exec(c, t, Run);
      && t in c'.pc && c'.pc == c.pc[t := c'.pc[t]]
      && (InAdd(c.pc[t]) ==>
          if c'.pc[t].Idle? then e.Added? && e.chain == c.pc[t].chain
          else e.Silent? && InAdd(c'.pc[t]) && c'.pc[t].chain == c.pc[t].chain)
      && (InDelFirst(c.pc[t]) ==>
          if c'.pc[t].Idle? then e.Popped? || e.FoundEmpty? else e.Silent? && InDelFirst(c'.pc[t]))
  {
    hide Stored, OneConsumer, Linked;
    assert PcOk(c, a, t);
  }

  /** Thread t runs alone, for n steps at most, until a call of its returns. */
  function Alone(c: Conf, t: nat, n: nat): (Conf, Event)
    requires t in c.pc
    decreases n
  {
    if n == 0 then (c, Silent)
    else var r := RunStep(c, t);
      if r.1.Silent? && t in r.0.pc then Alone(r.0, t, n - 1) else r
  }

  /** How many steps a thread that runs alone still takes: few, as a cmpxchg fails once at most. */
  function Needs(c: Conf, t: nat): nat
    requires t in c.pc
  {
    match c.pc[t]
    case Idle => 0
    case AddLoad(_) => 3
    case AddStore(_, first) => if c.first == first then 2 else 5
    case AddSwap(_, first) => if c.first == first then 1 else 4
    case DelLoad => if c.first == Null then 1 else 3
    case DelRead(entry) => if c.first == Null || c.first == To(entry) then 2 else 4
    case DelSwap(entry, _) => if c.first == Null || c.first == To(entry) then 1 else 3
  }

  /** The call in p has returned, and has done to the stack a what it is for. */
  ghost predicate Answered(c: Conf, e: Event, t: nat, p: Pc, a: seq<nat>) {
    && t in c.pc && c.pc[t].Idle?
    && if InAdd(p) then e == Added(p.chain, a == []) && Inv(c, p.chain + a)
      else if a == [] then e == FoundEmpty && Inv(c, [])
      else e == Popped(a[0]) && Inv(c, a[1..])
  }

  /** The last step of a call. */
  lemma {:induction false} LastStep(c: Conf, a: seq<nat>, t: nat)
    requires Inv(c, a) && t in c.pc && Needs(c, t) == 1
    ensures var r := RunStep(c, t); Answered(r.0, r.1, t, c.pc[t], a)
  {
    hide Inv;
    var a' := RunRefines(c, a, t);
    if c.pc[t].AddSwap? {
      PushStep(c, a, t);
    } else if c.first != Null {
      PopStep(c, a, t);
    }
  }

  lemma {:induction false} EarlierStep(c: Conf, a: seq<nat>, t: nat)
    requires Inv(c, a) && t in c.pc && Needs(c, t) > 1
    ensures var r := RunStep(c, t);
      && r.1.Silent? && Inv(r.0, a) && t in r.0.pc && Needs(r.0, t) == Needs(c, t) - 1
      && InAdd(r.0.pc[t]) == InAdd(c.pc[t]) && (InAdd(c.pc[t]) ==> r.0.pc[t].chain == c.pc[t].chain)
  {
    var a' := RunRefines(c, a, t);
    CallEnds(c, a, t);
  }

  /** Wherever a thread is in a call, and whatever the others have done: alone, it returns after so many steps. */
  lemma {:induction false} AloneReturns(c: Conf, a: seq<nat>, t: nat, n: nat)
    requires Inv(c, a) && t in c.pc && !c.pc[t].Idle?
    ensures 0 < Needs(c, t) <= if InAdd(c.pc[t]) then 5 else 4
    ensures var r := Alone(c, t, n);
      if n < Needs(c, t) then r.1.Silent? && t in r.0.pc && !r.0.pc[t].Idle? else Answered(r.0, r.1, t, c.pc[t], a)
    decreases n
  {
    hide Inv, Answered;
    if n > 0 {
      if Needs(c, t) == 1 {
        LastStep(c, a, t);
        AnsweredEvent(RunStep(c, t), t, c.pc[t], a);
      } else {
        EarlierStep(c, a, t);
        AloneReturns(RunStep(c, t).0, a, t, n - 1);
        SameCall(Alone(c, t, n), t, RunStep(c, t).0.pc[t], c.pc[t], a);
      }
    }
  }

  /** In particular at any point of any run that keeps to the table. */
  lemma {:induction false} RunReturns(cs: seq<Conf>, moves: seq<Move>, es: seq<Event>, i: nat, t: nat)
    returns (a: seq<nat>)
    requires Runs(cs, moves, es) && KeepsTable(cs, moves) && Init(cs[0])
    requires i < |cs| && t in cs[i].pc && !cs[i].pc[t].Idle?
    ensures Inv(cs[i], a) && Needs(cs[i], t) <= 5
    ensures var r := Alone(cs[i], t, Needs(cs[i], t)); Answered(r.0, r.1, t, cs[i].pc[t], a)
  {
    hide *;
    var stacks := Refines(cs, moves, es);
    a := stacks[i];
    AloneReturns(cs[i], a, t, Needs(cs[i], t));
  }

  lemma {:induction false} AnsweredEvent(r: (Conf, Event), t: nat, p: Pc, a: seq<nat>)
    requires Answered(r.0, r.1, t, p, a)
    ensures !r.1.Silent?
  {}

  lemma {:induction false} SameCall(r: (Conf, Event), t: nat, p: Pc, q: Pc, a: seq<nat>)
    requires InAdd(p) == InAdd(q) && (InAdd(p) ==> p.chain == q.chain)
    ensures Answered(r.0, r.1, t, p, a) <==> Answered(r.0, r.1, t, q, a)
  {}

  // ---- why the lock is needed ----

  /** An execution from the start that ends in configuration `last`. */
  ghost predicate RunsTo(cs: seq<Conf>, moves: seq<Move>, es: seq<Event>, last: Conf) {
    Runs(cs, moves, es) && cs[|moves|] == last && Init(cs[0])
  }

  lemma {:induction false} Extend(cs: seq<Conf>, moves: seq<Move>, es: seq<Event>, c: Conf, t: nat, act: Act)
    returns (cs': seq<Conf>, moves': seq<Move>, es': seq<Event>, c': Conf)
    requires RunsTo(cs, moves, es, c) && MayAct(c, t, act)
    ensures c' == Exec(c, t, act).0 && RunsTo(cs', moves', es', c')
  {
    hide Exec;
    var r := Exec(c, t, act);
    c' := r.0;
    cs', moves', es' := cs + [c'], moves + [Move(t, act)], es + [r.1];
  }

  /** Thread 0 is in llist_del_first, about to cmpxchg node 0 for its successor 1; node 2 is thread 1's. */
  function Caught(): Conf {
    Conf(To(0), map[0 := To(1), 1 := Null, 2 := Null], map[0 := InList, 1 := InList, 2 := Held(1)],
         map[0 := DelSwap(0, To(1)), 1 := Idle])
  }

  /** Thread 1 pushes a node of its own on the list, in four steps. */
  lemma {:induction false} PushAll(cs: seq<Conf>, moves: seq<Move>, es: seq<Event>, c: Conf, n: nat)
    returns (cs': seq<Conf>, moves': seq<Move>, es': seq<Event>, c': Conf)
    requires RunsTo(cs, moves, es, c)
    requires 1 in c.pc && c.pc[1].Idle? && n in c.owner && c.owner[n] == Held(1) && n in c.next
    ensures RunsTo(cs', moves', es', c')
    ensures c'.first == To(n) && c'.next == c.next[n := c.first] && c'.pc == c.pc
      && c'.owner == Give(c.owner, [n], InList)
  {
    hide RunsTo;
    assert ChainOk(c, 1, [n]);
    cs', moves', es', c' := Extend(cs, moves, es, c, 1, CallAdd([n]));
    cs', moves', es', c' := Extend(cs', moves', es', c', 1, Run);
    cs', moves', es', c' := Extend(cs', moves', es', c', 1, Run);
    cs', moves', es', c' := Extend(cs', moves', es', c', 1, Run);
    assert c'.pc == c.pc;
  }

  /** How it gets there: thread 1 adds nodes 1 and 0, and thread 0 calls llist_del_first. */
  lemma {:induction false} CaughtRun() returns (cs: seq<Conf>, moves: seq<Move>, es: seq<Event>)
    ensures RunsTo(cs, moves, es, Caught())
  {
    hide RunsTo;
    var c;
    cs, moves, es, c := Filled();
    cs, moves, es, c := Extend(cs, moves, es, c, 0, CallDelFirst);
    cs, moves, es, c := Extend(cs, moves, es, c, 0, Run);
    cs, moves, es, c := Extend(cs, moves, es, c, 0, Run);
    assert c.pc == Caught().pc;
  }

  lemma {:induction false} Filled() returns (cs: seq<Conf>, moves: seq<Move>, es: seq<Event>, c: Conf)
    ensures RunsTo(cs, moves, es, c) && c == Caught().(pc := map[0 := Idle, 1 := Idle])
  {
    hide RunsTo;
    cs, moves, es, c := Start();
    cs, moves, es, c := PushAll(cs, moves, es, c, 1);
    cs, moves, es, c := PushAll(cs, moves, es, c, 0);
    assert c.next == Caught().next && c.owner == Caught().owner;
  }

  lemma {:induction false} Start() returns (cs: seq<Conf>, moves: seq<Move>, es: seq<Event>, c: Conf)
    ensures RunsTo(cs, moves, es, c)
    ensures c == Conf(Null, map[0 := Null, 1 := Null, 2 := Null], map[0 := Held(1), 1 := Held(1), 2 := Held(1)],
                      map[0 := Idle, 1 := Idle])
  {
    c := Conf(Null, map[0 := Null, 1 := Null, 2 := Null], map[0 := Held(1), 1 := Held(1), 2 := Held(1)],
              map[0 := Idle, 1 := Idle]);
    cs, moves, es := [c], [], [];
  }

  /** Thread 1 takes node 0 with a llist_del_first of its own, in four steps. */
  lemma {:induction false} PopOther(cs: seq<Conf>, moves: seq<Move>, es: seq<Event>)
    returns (cs': seq<Conf>, moves': seq<Move>, es': seq<Event>, c': Conf)
    requires RunsTo(cs, moves, es, Caught())
    ensures RunsTo(cs', moves', es', c')
    ensures c'.first == To(1) && c'.next == Caught().next && c'.pc == Caught().pc
      && c'.owner == Give(Caught().owner, [0], Held(1))
  {
    hide RunsTo;
    cs', moves', es', c' := Extend(cs, moves, es, Caught(), 1, CallDelFirst);
    cs', moves', es', c' := Extend(cs', moves', es', c', 1, Run);
    cs', moves', es', c' := Extend(cs', moves', es', c', 1, Run);
    cs', moves', es', c' := Extend(cs', moves', es', c', 1, Run);
    assert c'.pc == Caught().pc;
  }

  /** Once node 0 is thread 1's, it pushes nodes 2 and 0; thread 0's cmpxchg then succeeds and loses node 2. */
  lemma {:induction false} PushTwo(cs: seq<Conf>, moves: seq<Move>, es: seq<Event>, c: Conf)
    returns (cs': seq<Conf>, moves': seq<Move>, es': seq<Event>, c': Conf)
    requires RunsTo(cs, moves, es, c) && c.next == Caught().next && c.pc == Caught().pc
    requires 0 in c.owner && c.owner[0] == Held(1) && 2 in c.owner && c.owner[2] == Held(1)
    ensures RunsTo(cs', moves', es', c') && Links(c'.next, c'.first, [1])
    ensures 2 in c'.owner && c'.owner[2].InList? && forall a :: !Inv(c', a)
  {
    hide RunsTo, Inv;
    cs', moves', es', c' := PushAll(cs, moves, es, c, 2);
    cs', moves', es', c' := PushAll(cs', moves', es', c', 0);
    cs', moves', es', c' := Extend(cs', moves', es', c', 0, Run);
    LostNode(c');
  }

  /**
   * The sequence of llist.h:18-23: while thread 0 is in llist_del_first, thread 1 takes the first node, pushes another
   * one, and pushes the first one back. Thread 0's cmpxchg succeeds, and node 2 is lost.
   */
  lemma {:induction false} DelFirstNeedsLock() returns (cs: seq<Conf>, moves: seq<Move>, es: seq<Event>, c: Conf)
    ensures Runs(cs, moves, es) && Init(cs[0]) && cs[|moves|] == c
    ensures Links(c.next, c.first, [1]) && 2 in c.owner && c.owner[2].InList? && forall a :: !Inv(c, a)
  {
    hide RunsTo, Inv;
    cs, moves, es := CaughtRun();
    cs, moves, es, c := PopOther(cs, moves, es);
    cs, moves, es, c := PushTwo(cs, moves, es, c);
    EndsRun(cs, moves, es, c);
  }

  /** The same with llist_del_all in thread 1. */
  lemma {:induction false} DelAllNeedsLock() returns (cs: seq<Conf>, moves: seq<Move>, es: seq<Event>, c: Conf)
    ensures Runs(cs, moves, es) && Init(cs[0]) && cs[|moves|] == c
    ensures Links(c.next, c.first, [1]) && 2 in c.owner && c.owner[2].InList? && forall a :: !Inv(c, a)
  {
    hide RunsTo, Inv;
    cs, moves, es := CaughtRun();
    cs, moves, es, c := Extend(cs, moves, es, Caught(), 1, DelAll);
    cs, moves, es, c := PushTwo(cs, moves, es, c);
    EndsRun(cs, moves, es, c);
  }

  lemma {:induction false} EndsRun(cs: seq<Conf>, moves: seq<Move>, es: seq<Event>, c: Conf)
    requires RunsTo(cs, moves, es, c)
    ensures Runs(cs, moves, es) && Init(cs[0]) && cs[|moves|] == c
  {}

  lemma {:induction false} LostNode(c: Conf)
    requires c.first == To(1) && 1 in c.next && c.next[1] == Null && 2 in c.owner && c.owner[2].InList?
    ensures Links(c.next, c.first, [1]) && forall a :: !Inv(c, a)
  {
    assert [1][1..] == [] && Links(c.next, Null, []);
    forall a ensures !Inv(c, a) {
      if Links(c.next, c.first, a) { LinksUnique(c.next, c.first, a, [1]); }
    }
  }
}
