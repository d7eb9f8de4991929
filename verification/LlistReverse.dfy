/** llist_reverse_order, on a chain that llist_del_all has handed over (llist.c:98-111). */
module LlistReverse {
  class LlistNode {
    var next: LlistNode?

    constructor () ensures next == null { next := null; }
  }

  /** Following next from p visits exactly s and ends at NULL. */
  ghost predicate Chain(p: LlistNode?, s: seq<LlistNode>)
    reads s
    decreases s
  {
    if s == [] then p == null else p == s[0] && Chain(p.next, s[1..])
  }

  ghost function Reversed(s: seq<LlistNode>): seq<LlistNode> {
    if s == [] then [] else Reversed(s[1..]) + [s[0]]
  }

  /** The oldest entry comes first: element k of the result is element |s| - 1 - k of s. */
  lemma {:induction false} ReversedAt(s: seq<LlistNode>, k: nat)
    requires k < |s|
    ensures |Reversed(s)| == |s| && Reversed(s)[k] == s[|s| - 1 - k]
    decreases |s|
  {
    if |s| > 1 { ReversedAt(s[1..], if k < |s| - 1 then k else 0); }
  }

  /** Reversing twice gives the chain back. */
  lemma {:induction false} ReversedTwice(s: seq<LlistNode>)
    ensures Reversed(Reversed(s)) == s
  {
    forall k | 0 <= k < |s| ensures |Reversed(Reversed(s))| == |s| && Reversed(Reversed(s))[k] == s[k] {
      ReversedAt(s, 0);
      ReversedAt(s, |s| - 1 - k);
      ReversedAt(Reversed(s), k);
    }
    if s == [] { assert Reversed([]) == []; }
  }

  /** A chain that ends cannot visit a node twice. */
  lemma {:induction false} ChainSuffix(p: LlistNode?, s: seq<LlistNode>, i: nat)
    requires Chain(p, s) && i < |s|
    ensures Chain(s[i], s[i..])
    decreases |s|
  {
    if i > 0 {
      ChainSuffix(p.next, s[1..], i - 1);
      assert s[1..][i - 1..] == s[i..];
    }
  }

  lemma {:induction false} ChainLength(p: LlistNode?, s: seq<LlistNode>, s': seq<LlistNode>)
    requires Chain(p, s) && Chain(p, s')
    ensures |s| == |s'|
    decreases |s|
  {
    if s != [] { ChainLength(p.next, s[1..], s'[1..]); }
  }

  lemma {:induction false} ChainHeadOnce(p: LlistNode?, s: seq<LlistNode>)
    requires Chain(p, s) && s != []
    ensures s[0] !in s[1..]
  {
    if s[0] in s[1..] {
      var i :| 0 <= i < |s[1..]| && s[1..][i] == s[0];
      ChainSuffix(p, s, i + 1);
      ChainLength(p, s, s[i + 1..]);
    }
  }

  /** llist_reverse_order */
  method ReverseOrder(head0: LlistNode?, ghost s: seq<LlistNode>) returns (newHead: LlistNode?)
    requires Chain(head0, s)
    modifies s
    ensures Chain(newHead, Reversed(s))
  {
    var head := head0;
    newHead := null;
    ghost var todo: seq<LlistNode>, done: seq<LlistNode> := s, [];
    while head != null
      invariant Chain(head, todo) && Chain(newHead, done)
      invariant (forall n :: n in todo ==> n in s) && (forall n :: n in done ==> n in s && n !in todo)
      invariant Reversed(todo) + done == Reversed(s)
      decreases |todo|
    {
      var tmp := head;
      ChainHeadOnce(head, todo);
      ghost var rest := todo[1..];
      assert todo == [tmp] + rest && todo[0] in todo;
      head := head.next;
      tmp.next := newHead;
      assert Chain(head, rest) && Chain(newHead, done);
      newHead := tmp;
      assert ([tmp] + done)[1..] == done;
      assert Reversed(todo) + done == Reversed(rest) + ([tmp] + done);
      todo, done := rest, [tmp] + done;
    }
    assert Reversed(todo) + done == done;
  }
}
