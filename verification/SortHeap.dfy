/** Heaps on sequences: the facts that heapsort rests on (sort.c:62-110). */
module SortHeap {
  import opened Compare

  type Byte = bv8

  /** One element of the array that sort() works on: `size` bytes. */
  type Record = seq<Byte>

  ghost predicate Sorted(a: seq<Record>, cmp: Cmp<Record>) {
    forall i, j :: 0 <= i < j < |a| ==> cmp(a[i], a[j]) <= 0
  }

  /** Element p is at least as large as its children, as far as they are below hi. */
  ghost predicate Above(a: seq<Record>, p: nat, hi: nat, cmp: Cmp<Record>)
    requires hi <= |a|
  {
    && (2 * p + 1 < hi ==> cmp(a[p], a[2 * p + 1]) >= 0)
    && (2 * p + 2 < hi ==> cmp(a[p], a[2 * p + 2]) >= 0)
  }

  /** The elements from lo up are above their children. */
  ghost predicate HeapFrom(a: seq<Record>, lo: nat, hi: nat, cmp: Cmp<Record>)
    requires hi <= |a|
  {
    forall p: nat :: p >= lo ==> Above(a, p, hi, cmp)
  }

  /** The same, but for r; what is above r is above r's children too. */
  ghost predicate Sinking(a: seq<Record>, lo: nat, hi: nat, r: nat, cmp: Cmp<Record>)
    requires hi <= |a|
  {
    && (forall p: nat :: p >= lo && p != r ==> Above(a, p, hi, cmp))
    && (r > 0 && (r - 1) / 2 >= lo ==>
        && (2 * r + 1 < hi ==> cmp(a[(r - 1) / 2], a[2 * r + 1]) >= 0)
        && (2 * r + 2 < hi ==> cmp(a[(r - 1) / 2], a[2 * r + 2]) >= 0))
  }

  function Swapped<T>(a: seq<T>, i: nat, j: nat): seq<T>
    requires i < |a| && j < |a|
  {
    a[i := a[j]][j := a[i]]
  }

  lemma {:induction false} SwappedMultiset<T>(a: seq<T>, i: nat, j: nat)
    requires i < |a| && j < |a|
    ensures multiset(Swapped(a, i, j)) == multiset(a)
  {}

  /** r's larger child c moves up, and r's old value sinks to c. */
  lemma {:induction false} SinkStep(a: seq<Record>, lo: nat, hi: nat, r: nat, c: nat, cmp: Cmp<Record>)
    requires TotalPreorder(cmp) && hi <= |a| && lo <= r < hi && Sinking(a, lo, hi, r, cmp)
    requires (c == 2 * r + 1 || c == 2 * r + 2) && c < hi && cmp(a[r], a[c]) < 0
    requires c == 2 * r + 1 && c + 1 < hi ==> cmp(a[c], a[c + 1]) >= 0
    requires c == 2 * r + 2 ==> cmp(a[c], a[c - 1]) >= 0
    ensures Sinking(Swapped(a, r, c), lo, hi, c, cmp)
  {
    hide TotalPreorder;
    var b := Swapped(a, r, c);
    Flip(a[r], a[c], cmp);
    forall p: nat | p >= lo && p != c ensures Above(b, p, hi, cmp) {
      if p == r {
      } else {
        assert Above(a, p, hi, cmp);
        if 2 * p + 1 == r || 2 * p + 2 == r { assert (r - 1) / 2 == p; }
      }
    }
    assert (c - 1) / 2 == r;
    assert Above(a, c, hi, cmp);
  }

  /** Sinking stops at a leaf, or above both children. */
  lemma {:induction false} SinkEnds(a: seq<Record>, lo: nat, hi: nat, r: nat, cmp: Cmp<Record>)
    requires hi <= |a| && Sinking(a, lo, hi, r, cmp) && Above(a, r, hi, cmp)
    ensures HeapFrom(a, lo, hi, cmp)
  {}

  /** Not smaller than the larger child means not smaller than either. */
  lemma {:induction false} AboveBoth(a: seq<Record>, hi: nat, r: nat, c: nat, cmp: Cmp<Record>)
    requires TotalPreorder(cmp) && hi <= |a| && r < hi
    requires (c == 2 * r + 1 || c == 2 * r + 2) && c < hi && cmp(a[r], a[c]) >= 0
    requires c == 2 * r + 1 && c + 1 < hi ==> cmp(a[c], a[c + 1]) >= 0
    requires c == 2 * r + 2 ==> cmp(a[c], a[c - 1]) >= 0
    ensures Above(a, r, hi, cmp)
  {
    hide TotalPreorder;
    if c == 2 * r + 1 && c + 1 < hi { Trans(a[r], a[c], a[c + 1], cmp); }
    if c == 2 * r + 2 { Trans(a[r], a[c], a[c - 1], cmp); }
  }

  /** Heapifying starts with the leaves, and each new root sinks. */
  lemma {:induction false} HeapLeaves(a: seq<Record>, lo: nat, cmp: Cmp<Record>)
    requires 2 * lo + 1 >= |a|
    ensures HeapFrom(a, lo, |a|, cmp)
  {}

  lemma {:induction false} HeapSinks(a: seq<Record>, r: nat, hi: nat, cmp: Cmp<Record>)
    requires hi <= |a| && HeapFrom(a, r + 1, hi, cmp)
    ensures Sinking(a, r, hi, r, cmp)
  {}

  /** The root of a heap is its largest element. */
  lemma {:induction false} RootLargest(a: seq<Record>, hi: nat, k: nat, cmp: Cmp<Record>)
    requires TotalPreorder(cmp) && k < hi <= |a| && HeapFrom(a, 0, hi, cmp)
    ensures cmp(a[0], a[k]) >= 0
    decreases k
  {
    hide TotalPreorder;
    if k == 0 {
      Flip(a[0], a[0], cmp);
    } else {
      var p := (k - 1) / 2;
      assert Above(a, p, hi, cmp);
      RootLargest(a, hi, p, cmp);
      Trans(a[0], a[p], a[k], cmp);
    }
  }

  /** The sorted part, from m up, holds nothing smaller than what is before it. */
  ghost predicate Tail(a: seq<Record>, m: nat, cmp: Cmp<Record>)
    requires m <= |a|
  {
    && (forall i, j :: m <= i < j < |a| ==> cmp(a[i], a[j]) <= 0)
    && (forall i, j :: 0 <= i < m <= j < |a| ==> cmp(a[i], a[j]) <= 0)
  }

  /** The root of the heap becomes the first element of the sorted part. */
  lemma {:induction false} Extract(a: seq<Record>, m: nat, cmp: Cmp<Record>)
    requires TotalPreorder(cmp) && 0 < m < |a| && HeapFrom(a, 0, m + 1, cmp) && Tail(a, m + 1, cmp)
    ensures var b := Swapped(a, 0, m); Tail(b, m, cmp) && Sinking(b, 0, m, 0, cmp)
  {
    hide TotalPreorder;
    var b := Swapped(a, 0, m);
    forall i | 0 <= i < m ensures cmp(b[i], b[m]) <= 0 {
      var k := if i == 0 then m else i;
      RootLargest(a, m + 1, k, cmp);
      Flip(b[i], b[m], cmp);
    }
    forall p: nat | p != 0 ensures Above(b, p, m, cmp) { assert Above(a, p, m + 1, cmp); }
  }

  /** Moving elements around below m does not disturb the sorted part. */
  lemma {:induction false} TailKept(a: seq<Record>, i: nat, j: nat, m: nat, cmp: Cmp<Record>)
    requires i < m && j < m <= |a| && Tail(a, m, cmp)
    ensures Tail(Swapped(a, i, j), m, cmp)
  {}

  lemma {:induction false} TailSorted(a: seq<Record>, m: nat, cmp: Cmp<Record>)
    requires m <= 1 && m <= |a| && Tail(a, m, cmp)
    ensures Sorted(a, cmp)
  {}

  // ---- counting ----

  function Log2(n: nat): nat { if n < 2 then 0 else 1 + Log2(n / 2) }

  lemma {:induction false} Log2Child(r: nat, c: nat)
    requires c == 2 * r + 1 || c == 2 * r + 2
    ensures Log2(c + 1) == Log2(r + 1) + 1
  {
    assert (c + 1) / 2 == r + 1;
  }

  lemma {:induction false} Log2Mono(a: nat, b: nat)
    requires a <= b
    ensures Log2(a) <= Log2(b)
  {
    if a >= 2 { Log2Mono(a / 2, b / 2); }
  }
}
