/** sort(): heapsort in place over byte offsets (sort.c:40-111). */
module Sort {
  import opened Compare
  import opened CTypes
  import opened SortHeap

  const INT_MAX: int := 0x7fff_ffff
  const TWO32: int := 0x1_0000_0000

  // ---- C arithmetic ----

  /** The value of an unsigned long once stored in an int. */
  function IntOf(x: int): int { var w := x % TWO32; if w > INT_MAX then w - TWO32 else w }

  /** `r * 2 + size < n`: the product is an int, the sum and the comparison are unsigned long. */
  predicate HasChild(r: int, size: int, n: int) {
    ULong(ULong(IntOf(r * 2)) + size) < ULong(n)
  }

  /** Within int range the product may wrap around, but the test comes out right. */
  lemma {:induction false} HasChildExact(r: int, size: int, n: int)
    requires 0 <= r < n <= INT_MAX && 0 < size <= n && r + size <= n
    ensures HasChild(r, size, n) <==> r * 2 + size < n
  {
    if r * 2 > INT_MAX {
      assert IntOf(r * 2) == r * 2 - TWO32;
      assert ULong(IntOf(r * 2)) == r * 2 - TWO32 + TWO64;
    } else {
      assert IntOf(r * 2) == r * 2;
    }
  }

  lemma {:induction false} IntOfSmall(x: int)
    requires -INT_MAX <= x <= INT_MAX
    ensures IntOf(x) == x
  {}

  /** Where record k is. */
  function Off(k: int, size: int): (o: int)
    ensures k >= 0 && size >= 0 ==> o >= 0
  {
    k * size
  }

  lemma {:induction false} Times(a: int, b: int, s: int)
    ensures a <= b && s >= 0 ==> Off(a, s) <= Off(b, s)
    ensures a < b && s > 0 ==> Off(a, s) < Off(b, s)
    ensures Off(a + 1, s) == Off(a, s) + s && Off(a - 1, s) == Off(a, s) - s && Off(2 * a + 1, s) == Off(a, s) * 2 + s
    ensures Off(0, s) == 0 && Off(1, s) == s
  {
    assert (2 * a + 1) * s == 2 * (a * s) + s;
  }

  // ---- records ----

  function RecordAt(b: seq<Byte>, size: nat, k: nat): Record {
    if Off(k + 1, size) <= |b| then b[Off(k + 1, size) - size..Off(k + 1, size)] else []
  }

  /** The elements that the bytes stand for. */
  function Records(b: seq<Byte>, size: nat, num: nat): (a: seq<Record>)
    ensures |a| == num && forall k :: 0 <= k < num ==> a[k] == RecordAt(b, size, k)
  {
    seq(num, k requires 0 <= k < num => RecordAt(b, size, k))
  }

  /** The `size` bytes at x and at y have changed places. */
  ghost predicate BytesSwapped(b: seq<Byte>, b': seq<Byte>, x: nat, y: nat, size: nat)
    requires x + size <= |b| && y + size <= |b|
  {
    |b'| == |b| && forall t :: 0 <= t < |b| ==>
      b'[t] == b[if x <= t < x + size then t - x + y else if y <= t < y + size then t - y + x else t]
  }

  lemma {:induction false} RecordSlice(b: seq<Byte>, size: nat, num: nat, k: nat, x: nat)
    requires Off(num, size) <= |b| && k < num && x == Off(k, size)
    ensures x + size <= Off(num, size) && RecordAt(b, size, k) == b[x..x + size]
  {
    Times(k + 1, num, size); Times(k, num, size);
  }

  lemma {:induction false} OthersApart(i: nat, k: nat, size: nat)
    requires i != k
    ensures Off(k, size) + size <= Off(i, size) || Off(i, size) + size <= Off(k, size)
  {
    if k < i { Times(k + 1, i, size); Times(k, i, size); } else { Times(i + 1, k, size); Times(i, k, size); }
  }

  lemma {:induction false} SwapRecord(b: seq<Byte>, b': seq<Byte>, size: nat, num: nat, i: nat, j: nat, k: nat)
    requires Off(num, size) <= |b| && i < num && j < num && i != j && k < num
    requires Off(i, size) + size <= |b| && Off(j, size) + size <= |b| && Off(i, size) >= 0 && Off(j, size) >= 0
    requires BytesSwapped(b, b', Off(i, size), Off(j, size), size)
    ensures RecordAt(b', size, k) == Swapped(Records(b, size, num), i, j)[k]
  {
    var x, y, z := Off(i, size), Off(j, size), Off(k, size);
    assert z >= 0 by { Times(k, num, size); }
    RecordSlice(b, size, num, i, x); RecordSlice(b, size, num, j, y);
    RecordSlice(b, size, num, k, z); RecordSlice(b', size, num, k, z);
    OthersApart(i, j, size);
    hide BytesSwapped, Records, RecordAt;
    if k == i || k == j {
      BytesTaken(b, b', x, y, size);
    } else {
      OthersApart(i, k, size); OthersApart(j, k, size);
      BytesLeft(b, b', x, y, z, size);
    }
  }

  lemma {:induction false} BytesTaken(b: seq<Byte>, b': seq<Byte>, x: nat, y: nat, size: nat)
    requires x + size <= |b| && y + size <= |b| && (x + size <= y || y + size <= x) && BytesSwapped(b, b', x, y, size)
    ensures |b'| == |b| && b'[x..x + size] == b[y..y + size] && b'[y..y + size] == b[x..x + size]
  {}

  lemma {:induction false} BytesLeft(b: seq<Byte>, b': seq<Byte>, x: nat, y: nat, z: nat, size: nat)
    requires x + size <= |b| && y + size <= |b| && z + size <= |b| && BytesSwapped(b, b', x, y, size)
    requires (x + size <= z || z + size <= x) && (y + size <= z || z + size <= y)
    ensures |b'| == |b| && b'[z..z + size] == b[z..z + size]
  {}

  /** Swapping the bytes of two records swaps the records, and nothing else. */
  lemma {:induction false} SwapRecords(b: seq<Byte>, b': seq<Byte>, size: nat, num: nat, i: nat, j: nat, x: nat, y: nat,
          n: nat)
    requires n == Off(num, size) <= |b| && i < num && j < num && i != j && x == Off(i, size) && y == Off(j, size)
    requires x + size <= |b| && y + size <= |b| && BytesSwapped(b, b', x, y, size)
    ensures |b'| == |b| && Records(b', size, num) == Swapped(Records(b, size, num), i, j) && b'[n..] == b[n..]
  {
    forall k | 0 <= k < num ensures Records(b', size, num)[k] == Swapped(Records(b, size, num), i, j)[k] {
      SwapRecord(b, b', size, num, i, j, k);
    }
    RecordSlice(b, size, num, i, x); RecordSlice(b, size, num, j, y);
  }

  // ---- the code ----

  lemma {:induction false} Nothing(b: seq<Byte>, x: nat, y: nat)
    requires x <= |b| && y <= |b|
    ensures BytesSwapped(b, b, x, y, 0)
  {}

  /** One more byte has changed places. */
  lemma {:induction false} SwapByte(b0: seq<Byte>, b: seq<Byte>, x: nat, y: nat, d: nat)
    requires x + d + 1 <= |b0| && y + d + 1 <= |b0| && (x + d + 1 <= y || y + d + 1 <= x)
    requires BytesSwapped(b0, b, x, y, d)
    ensures BytesSwapped(b0, b[x + d := b[y + d]][y + d := b[x + d]], x, y, d + 1)
  {}

  /** generic_swap; u32_swap and u64_swap do the same to 4 and 8 bytes at a time. */
  method Swap(base: array<Byte>, x0: nat, y0: nat, size0: nat)
    requires size0 > 0 && x0 + size0 <= base.Length && y0 + size0 <= base.Length
    requires x0 + size0 <= y0 || y0 + size0 <= x0
    modifies base
    ensures BytesSwapped(old(base[..]), base[..], x0, y0, size0)
  {
    hide BytesSwapped;
    var a, b, size := x0, y0, size0;
    Nothing(base[..], x0, y0);
    ghost var d := 0;
    while true
      invariant 0 < size <= size0 && d == size0 - size && a == x0 + d && b == y0 + d
      invariant BytesSwapped(old(base[..]), base[..], x0, y0, d)
      decreases size
    {
      ghost var was := base[..];
      var t := base[a];
      base[a] := base[b];
      base[b] := t;
      assert base[..] == was[a := was[b]][b := was[a]];
      SwapByte(old(base[..]), was, x0, y0, d);
      a, b, size, d := a + 1, b + 1, size - 1, d + 1;
      if size <= 0 { break; }
    }
  }

  /** Swap, seen as an exchange of two records. */
  method SwapElements(base: array<Byte>, x: nat, y: nat, size: nat, ghost num: nat, ghost i: nat, ghost j: nat)
    requires size > 0 && Off(num, size) <= base.Length && i < num && j < num && i != j && x == Off(i, size)
      && y == Off(j, size)
    modifies base
    ensures Records(base[..], size, num) == Swapped(old(Records(base[..], size, num)), i, j)
    ensures base[Off(num, size)..] == old(base[Off(num, size)..])
    ensures multiset(Records(base[..], size, num)) == multiset(old(Records(base[..], size, num)))
  {
    ghost var b := base[..];
    RecordSlice(b, size, num, i, x); RecordSlice(b, size, num, j, y);
    OthersApart(i, j, size);
    Swap(base, x, y, size);
    Times(num, num, size);
    SwapRecords(b, base[..], size, num, i, j, x, y, Off(num, size));
    SwappedMultiset(Records(b, size, num), i, j);
    assert base[Off(num, size)..] == base[..][Off(num, size)..] && b[Off(num, size)..] == old(base[Off(num, size)..]);
  }

  /** The child of the element at offset r that is worth comparing with it: the larger one. */
  method LargerChild(base: array<Byte>, r: int, n: int, size: int, cmp: Cmp<Record>, ghost num: nat, ghost R: nat,
          ghost hi: nat)
    returns (c: int, ghost C: nat, ghost calls: nat)
    requires 0 < size && Off(num, size) <= base.Length && R < hi <= num && r == Off(R, size)
      && n == Off(hi, size) <= INT_MAX
    requires 0 <= r && r * 2 + size < n
    ensures c == Off(C, size) && r < c && c + size <= n && C < hi && (C == 2 * R + 1 || C == 2 * R + 2) && calls <= 1
    ensures var a := Records(base[..], size, num);
      && (C == 2 * R + 1 && C + 1 < hi ==> cmp(a[C], a[C + 1]) >= 0)
      && (C == 2 * R + 2 ==> cmp(a[C - 1], a[C]) < 0)
  {
    hide Records, RecordAt, IntOf, ULong;
    ghost var a := Records(base[..], size, num);
    C, calls := 2 * R + 1, 0;
    Times(R, R, size); LessTimes(C, hi, size); LessTimes(C + 1, hi, size);
    ChildExact(r, size, n);
    c := IntOf(ULong(ULong(IntOf(r * 2)) + size));
    assert c == Off(C, size);
    Times(C, C, size);
    RecordSlice(base[..], size, num, C, c);
    if c < n - size {
      RecordSlice(base[..], size, num, C + 1, c + size);
      assert base[..][c..c + size] == base[c..c + size]
          && base[..][c + size..c + 2 * size] == base[c + size..c + 2 * size];
      calls := 1;
      if cmp(base[c..c + size], base[c + size..c + 2 * size]) < 0 {
        c, C := c + size, C + 1;
      }
    }
    InBounds(C, hi, num, size);
  }

  lemma {:induction false} LessTimes(a: int, b: int, s: int)
    requires s > 0
    ensures a < b <==> Off(a, s) < Off(b, s)
    ensures Off(0, s) == 0 && Off(-1, s) == -s
  {
    Times(a, b, s); Times(b, a, s);
  }

  lemma {:induction false} ChildExact(r: int, size: int, n: int)
    requires 0 <= r && 0 < size && r * 2 + size < n <= INT_MAX
    ensures IntOf(ULong(ULong(IntOf(r * 2)) + size)) == r * 2 + size
  {}

  lemma {:induction false} InBounds(R: nat, hi: nat, num: nat, size: nat)
    requires R < hi <= num && size > 0
    ensures 0 <= Off(R, size) && Off(R, size) + size <= Off(hi, size) <= Off(num, size)
    ensures Off(R, size) * 2 + size < Off(hi, size) <==> 2 * R + 1 < hi
  {
    Times(R + 1, hi, size); Times(hi, num, size); Times(R, R, size);
    LessTimes(2 * R + 1, hi, size);
  }

  /** What one round of sinking establishes. */
  lemma {:induction false} SinkRound(a: seq<Record>, lo: nat, hi: nat, R: nat, C: nat, cmp: Cmp<Record>)
    requires hi <= |a| && lo <= R < hi && C < hi && (C == 2 * R + 1 || C == 2 * R + 2)
    requires C == 2 * R + 1 && C + 1 < hi ==> cmp(a[C], a[C + 1]) >= 0
    requires C == 2 * R + 2 ==> cmp(a[C - 1], a[C]) < 0
    ensures TotalPreorder(cmp) && Sinking(a, lo, hi, R, cmp) ==>
      if cmp(a[R], a[C]) >= 0 then HeapFrom(a, lo, hi, cmp) else Sinking(Swapped(a, R, C), lo, hi, C, cmp)
    ensures Log2(C + 1) == Log2(R + 1) + 1
  {
    hide Off, TotalPreorder, Sinking, HeapFrom;
    Log2Child(R, C);
    if TotalPreorder(cmp) && Sinking(a, lo, hi, R, cmp) {
      if C == 2 * R + 2 { Flip(a[C - 1], a[C], cmp); }
      if cmp(a[R], a[C]) >= 0 {
        AboveBoth(a, hi, R, C, cmp);
        SinkEnds(a, lo, hi, R, cmp);
      } else {
        SinkStep(a, lo, hi, R, C, cmp);
      }
    }
  }

  /** Sinking is over when there is no child left. */
  lemma {:induction false} SinkBottom(a: seq<Record>, lo: nat, hi: nat, R: nat, cmp: Cmp<Record>)
    requires hi <= |a| && 2 * R + 1 >= hi
    ensures Sinking(a, lo, hi, R, cmp) ==> HeapFrom(a, lo, hi, cmp)
  {
    if Sinking(a, lo, hi, R, cmp) { SinkEnds(a, lo, hi, R, cmp); }
  }

  ghost predicate TailsKept(a: seq<Record>, b: seq<Record>, hi: nat, cmp: Cmp<Record>) {
    |a| == |b| && forall m :: hi <= m <= |a| && Tail(a, m, cmp) ==> Tail(b, m, cmp)
  }

  lemma {:induction false} TailsSwap(a: seq<Record>, b: seq<Record>, i: nat, j: nat, hi: nat, cmp: Cmp<Record>)
    requires TailsKept(a, b, hi, cmp) && i < hi && j < hi <= |a|
    ensures TailsKept(a, Swapped(b, i, j), hi, cmp)
  {
    forall m | hi <= m <= |a| && Tail(a, m, cmp) ensures Tail(Swapped(b, i, j), m, cmp) {
      TailKept(b, i, j, m, cmp);
    }
  }

  /**
   * One round of the inner loop: the larger child c of the element at offset r either
   * stays below it, or they change places.
   */
  method SinkOnce(base: array<Byte>, r: int, n: int, size: int, cmp: Cmp<Record>, ghost num: nat, ghost lo: nat,
          ghost hi: nat, ghost R: nat)
    returns (done: bool, c: int, ghost C: nat, ghost calls: nat)
    requires 0 < size && Off(num, size) <= base.Length && lo <= R < hi <= num && r == Off(R, size)
      && n == Off(hi, size) <= INT_MAX
    requires 0 <= r && r * 2 + size < n
    modifies base
    ensures c == Off(C, size) && 0 <= c && c + size <= n && R < C < hi && calls <= 2 && Log2(C + 1) == Log2(R + 1) + 1
    ensures done ==> base[..] == old(base[..])
    ensures !done ==> Records(base[..], size, num) == Swapped(old(Records(base[..], size, num)), R, C)
    ensures TotalPreorder(cmp) && Sinking(old(Records(base[..], size, num)), lo, hi, R, cmp) ==>
      if done then HeapFrom(Records(base[..], size, num), lo, hi, cmp)
        else Sinking(Records(base[..], size, num), lo, hi, C, cmp)
    ensures multiset(Records(base[..], size, num)) == multiset(old(Records(base[..], size, num)))
    ensures base[Off(num, size)..] == old(base[Off(num, size)..])
  {
    hide Off, TotalPreorder, Sinking, HeapFrom, Swapped, Records, Log2;
    ghost var a := Records(base[..], size, num);
    c, C, calls := LargerChild(base, r, n, size, cmp, num, R, hi);
    SinkRound(a, lo, hi, R, C, cmp);
    calls := calls + 1;
    Compared(base[..], size, num, R, C);
    if cmp(base[r..r + size], base[c..c + size]) >= 0 {
      done := true;
    } else {
      done := false;
      SwapElements(base, r, c, size, num, R, C);
    }
  }

  /** The inner loop of both phases: the element at offset r0 sinks in the heap of the first n bytes. */
  method SiftDown(base: array<Byte>, r0: int, n: int, size: int, cmp: Cmp<Record>, ghost num: nat, ghost lo: nat,
          ghost hi: nat)
    returns (ghost calls: nat)
    requires 0 < size && Off(num, size) <= base.Length && Off(num, size) <= INT_MAX && lo < hi <= num
      && r0 == Off(lo, size)
      && n == Off(hi, size)
    modifies base
    ensures TotalPreorder(cmp) && Sinking(old(Records(base[..], size, num)), lo, hi, lo, cmp) ==>
      HeapFrom(Records(base[..], size, num), lo, hi, cmp)
    ensures TailsKept(old(Records(base[..], size, num)), Records(base[..], size, num), hi, cmp)
    ensures multiset(Records(base[..], size, num)) == multiset(old(Records(base[..], size, num)))
    ensures base[Off(num, size)..] == old(base[Off(num, size)..])
    ensures calls <= 2 * Log2(hi)
  {
    hide Off, TotalPreorder, Sinking, HeapFrom, HasChild, TailsKept, Swapped, Records, Log2;
    ghost var a0 := Records(base[..], size, num);
    var r := r0;
    ghost var R := lo;
    calls := 0;
    NoChange(a0, hi, cmp);
    InBounds(R, hi, num, size);
    while HasChild(r, size, n)
      invariant lo <= R < hi && r == Off(R, size) && 0 <= r && r + size <= n
      invariant TotalPreorder(cmp) && Sinking(a0, lo, hi, lo, cmp) ==>
        Sinking(Records(base[..], size, num), lo, hi, R, cmp)
      invariant TailsKept(a0, Records(base[..], size, num), hi, cmp)
        && multiset(Records(base[..], size, num)) == multiset(a0)
      invariant base[Off(num, size)..] == old(base[Off(num, size)..])
      invariant calls <= 2 * Log2(R + 1)
      decreases hi - R
    {
      HasChildExact(r, size, n);
      ghost var a := Records(base[..], size, num);
      var done, c;
      ghost var C, more;
      done, c, C, more := SinkOnce(base, r, n, size, cmp, num, lo, hi, R);
      calls := calls + more;
      if done {
        Log2Mono(C + 1, hi);
        return;
      }
      TailsSwap(a0, a, R, C, hi, cmp);
      r, R := c, C;
    }
    HasChildExact(r, size, n);
    InBounds(R, hi, num, size);
    SinkBottom(Records(base[..], size, num), lo, hi, R, cmp);
    Log2Mono(R + 1, hi);
  }

  lemma {:induction false} NoChange(a: seq<Record>, hi: nat, cmp: Cmp<Record>)
    ensures TailsKept(a, a, hi, cmp)
  {}

  /** What the comparison function is shown are the two records. */
  lemma {:induction false} Compared(b: seq<Byte>, size: nat, num: nat, R: nat, C: nat)
    requires Off(num, size) <= |b| && R < num && C < num
    ensures 0 <= Off(R, size) && Off(R, size) + size <= |b|
      && Records(b, size, num)[R] == b[Off(R, size)..Off(R, size) + size]
    ensures 0 <= Off(C, size) && Off(C, size) + size <= |b|
      && Records(b, size, num)[C] == b[Off(C, size)..Off(C, size) + size]
  {
    Times(R, R, size); Times(C, C, size);
    RecordSlice(b, size, num, R, Off(R, size)); RecordSlice(b, size, num, C, Off(C, size));
  }

  lemma {:induction false} Starts(num: nat, size: nat)
    requires 0 < size <= INT_MAX && Off(num, size) <= INT_MAX
    ensures IntOf(ULong(Off(num / 2 - 1, size))) == Off(num / 2 - 1, size) && IntOf(Off(num, size)) == Off(num, size)
  {
    Times(-1, num / 2 - 1, size); Times(num / 2 - 1, num, size);
    var x := Off(num / 2 - 1, size);
    assert -INT_MAX <= x <= INT_MAX;
    if x < 0 { assert ULong(x) == x + TWO64; }
  }

  lemma {:induction false} StepDown(k: nat, num: nat, size: nat)
    requires k <= num && 0 < size <= INT_MAX && Off(num, size) <= INT_MAX
    ensures IntOf(Off(k, size) - size) == Off(k - 1, size)
  {
    Times(k, num, size); Times(0, k, size);
    IntOfSmall(Off(k, size) - size);
  }

  /** What k calls that compare twice on each of l levels amount to. */
  function Budget(k: int, l: int): int { 2 * k * l }

  lemma {:induction false} MoreCalls(k: int, l: int)
    ensures Budget(k + 1, l) == Budget(k, l) + 2 * l && Budget(0, l) == 0
  {}

  lemma {:induction false} TailAtEnd(a: seq<Record>, cmp: Cmp<Record>)
    ensures Tail(a, |a|, cmp)
  {}

  lemma {:induction false} TailsUse(a: seq<Record>, b: seq<Record>, m: nat, cmp: Cmp<Record>)
    requires TailsKept(a, b, m, cmp) && m <= |a|
    ensures Tail(a, m, cmp) ==> Tail(b, m, cmp)
  {}

  /** One round of phase one: the heap takes in the record at offset i. */
  method HeapRound(base: array<Byte>, i: int, n: int, size: nat, cmp: Cmp<Record>, ghost num: nat, ghost K: nat)
    returns (ghost more: nat)
    requires 0 < size <= INT_MAX && Off(num, size) <= INT_MAX && Off(num, size) <= base.Length && n == Off(num, size)
    requires K < num && i == Off(K, size)
    modifies base
    ensures TotalPreorder(cmp) && HeapFrom(old(Records(base[..], size, num)), K + 1, num, cmp) ==>
      HeapFrom(Records(base[..], size, num), K, num, cmp)
    ensures multiset(Records(base[..], size, num)) == multiset(old(Records(base[..], size, num)))
    ensures base[Off(num, size)..] == old(base[Off(num, size)..])
    ensures more <= 2 * Log2(num)
  {
    hide Off, TotalPreorder, Sinking, HeapFrom, TailsKept, Records, Log2, Swapped;
    ghost var a := Records(base[..], size, num);
    if TotalPreorder(cmp) && HeapFrom(a, K + 1, num, cmp) { HeapSinks(a, K, num, cmp); }
    more := SiftDown(base, i, n, size, cmp, num, K, num);
  }

  /** Phase one: the bytes become a heap. */
  method Heapify(base: array<Byte>, num: nat, size: nat, n: int, cmp: Cmp<Record>) returns (ghost calls: nat)
    requires 0 < size <= INT_MAX && Off(num, size) <= INT_MAX && Off(num, size) <= base.Length && n == Off(num, size)
    modifies base
    ensures TotalPreorder(cmp) ==> HeapFrom(Records(base[..], size, num), 0, num, cmp)
    ensures multiset(Records(base[..], size, num)) == multiset(old(Records(base[..], size, num)))
    ensures base[Off(num, size)..] == old(base[Off(num, size)..])
    ensures calls <= Budget(num / 2, Log2(num))
  {
    hide Off, TotalPreorder, Sinking, HeapFrom, TailsKept, Records, Log2, Tail, Sorted, IntOf, ULong, Swapped, Budget;
    ghost var a0 := Records(base[..], size, num);
    ghost var L := Log2(num);
    ghost var half := num / 2;
    ghost var I: nat, d: nat := half, 0;
    Starts(num, size);
    var i := IntOf(ULong(Off(num / 2 - 1, size)));
    calls := 0;
    MoreCalls(0, L);
    HeapLeaves(Records(base[..], size, num), I, cmp);
    while i >= 0
      invariant I + d == half <= num && i == Off(I - 1, size)
      invariant TotalPreorder(cmp) ==> HeapFrom(Records(base[..], size, num), I, num, cmp)
      invariant multiset(Records(base[..], size, num)) == multiset(a0)
        && base[Off(num, size)..] == old(base[Off(num, size)..])
      invariant calls <= Budget(d, L)
      decreases I
    {
      LessTimes(-1, I - 1, size);
      ghost var more := HeapRound(base, i, n, size, cmp, num, I - 1);
      MoreCalls(d, L);
      calls := calls + more;
      StepDown(I - 1, num, size);
      i := IntOf(i - size);
      I, d := I - 1, d + 1;
    }
    LessTimes(I - 1, 0, size);
  }

  /** One round of phase two: the largest element goes to offset i, and the heap below is repaired. */
  method ExtractRound(base: array<Byte>, i: int, size: nat, cmp: Cmp<Record>, ghost num: nat, ghost K: nat)
    returns (ghost more: nat)
    requires 0 < size <= INT_MAX && Off(num, size) <= INT_MAX && Off(num, size) <= base.Length && 0 < K < num
      && i == Off(K, size)
    modifies base
    ensures var was, now := old(Records(base[..], size, num)), Records(base[..], size, num);
      TotalPreorder(cmp) && HeapFrom(was, 0, K + 1, cmp) && Tail(was, K + 1, cmp) ==>
      HeapFrom(now, 0, K, cmp) && Tail(now, K, cmp)
    ensures multiset(Records(base[..], size, num)) == multiset(old(Records(base[..], size, num)))
    ensures base[Off(num, size)..] == old(base[Off(num, size)..])
    ensures more <= 2 * Log2(num)
  {
    hide Off, TotalPreorder, Sinking, HeapFrom, TailsKept, Records, Log2, Tail, Swapped;
    ghost var a := Records(base[..], size, num);
    if TotalPreorder(cmp) && HeapFrom(a, 0, K + 1, cmp) && Tail(a, K + 1, cmp) { Extract(a, K, cmp); }
    LessTimes(0, K, size);
    SwapElements(base, 0, i, size, num, 0, K);
    ghost var b := Records(base[..], size, num);
    more := SiftDown(base, 0, i, size, cmp, num, 0, K);
    TailsUse(b, Records(base[..], size, num), K, cmp);
    Log2Mono(K, num);
  }

  /** Phase two: the heap is taken apart from the top. */
  method ExtractAll(base: array<Byte>, num: nat, size: nat, n: int, cmp: Cmp<Record>) returns (ghost calls: nat)
    requires 0 < size <= INT_MAX && Off(num, size) <= INT_MAX && Off(num, size) <= base.Length && n == Off(num, size)
    modifies base
    ensures TotalPreorder(cmp) && HeapFrom(old(Records(base[..], size, num)), 0, num, cmp) ==>
      Sorted(Records(base[..], size, num), cmp)
    ensures multiset(Records(base[..], size, num)) == multiset(old(Records(base[..], size, num)))
    ensures base[Off(num, size)..] == old(base[Off(num, size)..])
    ensures num >= 1 ==> calls <= Budget(num - 1, Log2(num))
  {
    hide Off, TotalPreorder, Sinking, HeapFrom, TailsKept, Records, Log2, Tail, Sorted, IntOf, ULong, Swapped, Budget;
    ghost var a0 := Records(base[..], size, num);
    ghost var ok := TotalPreorder(cmp) && HeapFrom(a0, 0, num, cmp);
    ghost var L := Log2(num);
    ghost var K: nat, d: nat := num, 0;
    TailAtEnd(a0, cmp);
    StepDown(num, num, size);
    calls := 0;
    MoreCalls(0, L);
    var i := IntOf(n - size);
    while i > 0
      invariant K + d == num && (num >= 1 ==> K >= 1) && i == Off(K - 1, size)
      invariant ok ==> HeapFrom(Records(base[..], size, num), 0, K, cmp) && Tail(Records(base[..], size, num), K, cmp)
      invariant multiset(Records(base[..], size, num)) == multiset(a0)
        && base[Off(num, size)..] == old(base[Off(num, size)..])
      invariant calls <= Budget(d, L)
      decreases K
    {
      LessTimes(0, K - 1, size);
      ghost var more := ExtractRound(base, i, size, cmp, num, K - 1);
      MoreCalls(d, L);
      calls := calls + more;
      StepDown(K - 1, num, size);
      i := IntOf(i - size);
      K, d := K - 1, d + 1;
    }
    LessTimes(0, K - 1, size);
    if ok { TailSorted(Records(base[..], size, num), K, cmp); }
  }

  lemma {:induction false} AddCalls(a: int, b: int, l: int)
    ensures Budget(a, l) + Budget(b, l) == 2 * (a + b) * l
  {}

  /** sort(): `calls` counts the calls of cmp_func. */
  method Sort(base: array<Byte>, num: nat, size: nat, cmp: Cmp<Record>) returns (ghost calls: nat)
    requires 0 < size <= INT_MAX && Off(num, size) <= INT_MAX && Off(num, size) <= base.Length
    modifies base
    ensures TotalPreorder(cmp) ==> Sorted(Records(base[..], size, num), cmp)
    ensures multiset(Records(base[..], size, num)) == multiset(old(Records(base[..], size, num)))
    ensures base[Off(num, size)..] == old(base[Off(num, size)..])
    ensures num >= 1 ==> calls <= 2 * (num / 2 + num - 1) * Log2(num)
  {
    hide Off, TotalPreorder, HeapFrom, Records, Log2, Sorted, IntOf;
    Starts(num, size);
    var n := IntOf(Off(num, size));
    ghost var first := Heapify(base, num, size, n, cmp);
    ghost var second := ExtractAll(base, num, size, n, cmp);
    AddCalls(num / 2, num - 1, Log2(num));
    return first + second;
  }
}
