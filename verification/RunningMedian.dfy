/** The two binary heaps that keep the middle of a sample at their roots, and the streaming median built from them. */
module RunningMedian {
  import opened OrderStats

  /** True when `a` must sit nearer the root than `b`. */
  predicate Before(max: bool, a: real, b: real) {
    if max then a > b else a < b
  }

  function Parent(j: nat): nat
    requires j > 0
  {
    (j - 1) / 2
  }

  /** No element but possibly the one at `except` comes before its parent. */
  predicate HeapExcept(max: bool, d: seq<real>, except: nat) {
    forall k :: 1 <= k < |d| && k != except ==> !Before(max, d[k], d[Parent(k)])
  }

  predicate IsHeap(max: bool, d: seq<real>) {
    HeapExcept(max, d, 0)
  }

  /** No element of a heap comes before its root. */
  lemma {:induction false} RootFirst(max: bool, d: seq<real>, k: nat)
    requires IsHeap(max, d) && k < |d|
    ensures !Before(max, d[k], d[0])
  {
    if k > 0 { RootFirst(max, d, Parent(k)); }
  }

  function Swapped(d: seq<real>, i: nat, j: nat): (r: seq<real>)
    requires i < |d| && j < |d|
    ensures |r| == |d| && multiset(r) == multiset(d)
  {
    d[i := d[j]][j := d[i]]
  }

  /** `d` is a heap but for the element at `j`, which may come before its ancestors. */
  predicate RisingAt(max: bool, d: seq<real>, j: nat) {
    && j < |d|
    && HeapExcept(max, d, j)
    && forall k :: 1 <= k < |d| && j > 0 && Parent(k) == j ==> !Before(max, d[k], d[Parent(j)])
  }

  lemma RiseStep(max: bool, d: seq<real>, j: nat)
    requires RisingAt(max, d, j) && j > 0 && Before(max, d[j], d[Parent(j)])
    ensures RisingAt(max, Swapped(d, Parent(j), j), Parent(j))
  {
    var (p, r) := (Parent(j), Swapped(d, Parent(j), j));
    forall k | 1 <= k < |d| && k != p ensures !Before(max, r[k], r[Parent(k)]) {}
    forall k | 1 <= k < |d| && p > 0 && Parent(k) == p ensures !Before(max, r[k], r[Parent(p)]) {
      assert !Before(max, d[p], d[Parent(p)]);
      if k != j { assert !Before(max, d[k], d[p]); }
    }
  }

  /** The first `n` elements of `d` are a heap but for the one at `i`, which may come after its descendants. */
  predicate SinkingAt(max: bool, d: seq<real>, n: nat, i: nat) {
    && n <= |d|
    && (forall k :: 1 <= k < n && Parent(k) != i ==> !Before(max, d[k], d[Parent(k)]))
    && forall k :: 1 <= k < n && i > 0 && Parent(k) == i && i < n ==> !Before(max, d[k], d[Parent(i)])
  }

  lemma SinkStep(max: bool, d: seq<real>, n: nat, i: nat, j: nat)
    requires SinkingAt(max, d, n, i) && 0 < j < n && Parent(j) == i && Before(max, d[j], d[i])
    requires forall k :: 1 <= k < n && Parent(k) == i ==> !Before(max, d[k], d[j])
    ensures SinkingAt(max, Swapped(d, i, j), n, j)
  {
  }

  /** The child of `i` that the other child does not come before. */
  function LeadingChild(max: bool, d: seq<real>, n: nat, i: nat): (j: nat)
    requires 2 * i + 1 < n <= |d|
    ensures 0 < j < n && Parent(j) == i
    ensures forall k :: 1 <= k < n && Parent(k) == i ==> !Before(max, d[k], d[j])
  {
    var left := 2 * i + 1;
    if left + 1 < n && Before(max, d[left + 1], d[left]) then left + 1 else left
  }

  /** With root and last element exchanged, the rest of a heap is one but for its root. */
  lemma RootTaken(max: bool, d: seq<real>, n: nat)
    requires IsHeap(max, d) && n == |d| - 1
    ensures SinkingAt(max, Swapped(d, 0, n), n, 0) && Swapped(d, 0, n)[n] == d[0]
  {
  }

  /** A slice ordered as a binary heap: the largest value at the root when `max`, the smallest otherwise. */
  class Heap {
    const max: bool
    var data: seq<real>

    constructor (max: bool)
      ensures this.max == max && data == []
    {
      this.max := max;
      data := [];
    }

    ghost predicate Valid()
      reads this
    {
      IsHeap(max, data)
    }

    /** Moves the element at `start` up until it does not come before its parent. */
    method Up(start: nat)
      requires RisingAt(max, data, start)
      modifies this
      ensures Valid() && |data| == old(|data|) && multiset(data) == old(multiset(data))
    {
      var j: nat := start;
      while j != 0 && Before(max, data[j], data[Parent(j)])
        invariant RisingAt(max, data, j)
        invariant |data| == old(|data|) && multiset(data) == old(multiset(data))
      {
        RiseStep(max, data, j);
        data := Swapped(data, Parent(j), j);
        j := Parent(j);
      }
    }

    /** Moves the root down, within the first `n` elements, until no child comes before it. */
    method Down(n: nat)
      requires SinkingAt(max, data, n, 0)
      modifies this
      ensures |data| == old(|data|) && multiset(data) == old(multiset(data))
      ensures IsHeap(max, data[..n]) && data[n..] == old(data[n..])
    {
      var i: nat := 0;
      while 2 * i + 1 < n
        invariant SinkingAt(max, data, n, i)
        invariant |data| == old(|data|) && multiset(data) == old(multiset(data))
        invariant data[n..] == old(data[n..])
        decreases n - i
      {
        var j := LeadingChild(max, data, n, i);
        if !Before(max, data[j], data[i]) { break; }
        SinkStep(max, data, n, i, j);
        data := Swapped(data, i, j);
        i := j;
      }
    }

    /** heap.Push */
    method Push(v: real)
      requires Valid()
      modifies this
      ensures Valid() && multiset(data) == old(multiset(data)) + multiset{v} && |data| == old(|data|) + 1
    {
      data := data + [v];
      Up(|data| - 1);
    }

    /** heap.Pop */
    method Pop() returns (v: real)
      requires Valid() && data != []
      modifies this
      ensures Valid() && v == old(data[0])
      ensures multiset(data) == old(multiset(data)) - multiset{v} && |data| == old(|data|) - 1
    {
      var n := |data| - 1;
      RootTaken(max, data, n);
      data := Swapped(data, 0, n);
      Down(n);
      v := data[n];
      assert data == data[..n] + [data[n]];
      data := data[..n];
    }
  }

  /** Every value of `lo` is at most every value of `hi`. */
  predicate Split(lo: seq<real>, hi: seq<real>) {
    forall x, y :: x in lo && y in hi ==> x <= y
  }

  /** The sizes two balanced halves may have. */
  predicate Balanced(lo: seq<real>, hi: seq<real>) {
    |hi| <= |lo| <= |hi| + 1
  }

  /** Halves stay split when one value moves between them or joins one on its own side. */
  lemma SplitAfterMove(lo: seq<real>, hi: seq<real>, lo': seq<real>, hi': seq<real>, x: real)
    requires Split(lo, hi)
    requires multiset(lo') <= multiset(lo) + multiset{x} && multiset(hi') <= multiset(hi) + multiset{x}
    requires x in lo' && x !in lo ==> forall y :: y in hi ==> x <= y
    requires x in hi' && x !in hi ==> forall y :: y in lo ==> y <= x
    ensures Split(lo', hi')
  {
    forall a, b | a in lo' && b in hi' ensures a <= b {
      assert a in multiset(lo') && b in multiset(hi');
      assert a in multiset(lo) + multiset{x} && b in multiset(hi) + multiset{x};
      assert (a in lo || a == x) && (b in hi || b == x);
    }
  }

  /** The roots of two balanced halves of a sample give its median. */
  lemma MedianOfHalves(s: seq<real>, lo: seq<real>, hi: seq<real>)
    requires multiset(s) == multiset(lo) + multiset(hi) && Split(lo, hi) && Balanced(lo, hi)
    requires IsHeap(true, lo) && IsHeap(false, hi)
    ensures Median(s) ==
            if lo == [] then 0.0
            else if |lo| > |hi| then lo[0]
            else (lo[0] + hi[0]) / 2.0
  {
    SortIsSorted(s);
    SortIsSorted(lo);
    SortIsSorted(hi);
    AscendingAppend(Sort(lo), Sort(hi), lo, hi);
    AscendingUnique(Sort(s), Sort(lo) + Sort(hi));
    if lo != [] {
      LastSorted(lo);
      if hi != [] { FirstSorted(hi); }
      MiddleOfAppended(Sort(lo), Sort(hi));
    }
  }

  lemma MiddleOfAppended(a: seq<real>, b: seq<real>)
    requires Balanced(a, b) && a != []
    ensures Middle(a + b) == if |a| > |b| then a[|a| - 1] else (a[|a| - 1] + b[0]) / 2.0
  {
  }

  lemma LastSorted(d: seq<real>)
    requires IsHeap(true, d) && d != []
    ensures Sort(d)[|d| - 1] == d[0]
  {
    var a := Sort(d);
    SortIsSorted(d);
    assert a[|d| - 1] in multiset(a) && d[0] in multiset(d);
    assert a[|d| - 1] in d && d[0] in a;
    var k :| 0 <= k < |d| && d[k] == a[|d| - 1];
    RootFirst(true, d, k);
  }

  lemma FirstSorted(d: seq<real>)
    requires IsHeap(false, d) && d != []
    ensures Sort(d)[0] == d[0]
  {
    var a := Sort(d);
    SortIsSorted(d);
    assert a[0] in multiset(a) && d[0] in multiset(d);
    assert a[0] in d && d[0] in a;
    var k :| 0 <= k < |d| && d[k] == a[0];
    RootFirst(false, d, k);
  }

  lemma LargestFirst(l: seq<real>)
    requires IsHeap(true, l)
    ensures l != [] ==> l[0] in l && forall x :: x in l ==> x <= l[0]
  {
    forall k | 0 <= k < |l| ensures l[k] <= l[0] { RootFirst(true, l, k); }
  }

  /** The streaming median: a max-heap of the lower half and a min-heap of the upper half. */
  class Estimator {
    const lo: Heap
    const hi: Heap
    ghost var pushed: seq<real>

    ghost predicate Shape()
      reads this, lo, hi
    {
      && lo != hi && lo.max && !hi.max && lo.Valid() && hi.Valid()
      && Split(lo.data, hi.data)
      && multiset(lo.data) + multiset(hi.data) == multiset(pushed)
    }

    ghost predicate Valid()
      reads this, lo, hi
    {
      Shape() && Balanced(lo.data, hi.data)
    }

    constructor ()
      ensures Valid() && pushed == [] && fresh(lo) && fresh(hi)
    {
      lo := new Heap(true);
      hi := new Heap(false);
      pushed := [];
    }

    method Lower()
      requires Shape() && lo.data != []
      modifies lo, hi
      ensures Shape() && |lo.data| == old(|lo.data|) - 1 && |hi.data| == old(|hi.data|) + 1
    {
      ghost var l, h := lo.data, hi.data;
      forall k | 0 <= k < |l| ensures l[k] <= l[0] { RootFirst(true, l, k); }
      assert l[0] in l;
      var v := lo.Pop();
      hi.Push(v);
      SplitAfterMove(l, h, lo.data, hi.data, v);
    }

    method Raise()
      requires Shape() && hi.data != []
      modifies lo, hi
      ensures Shape() && |lo.data| == old(|lo.data|) + 1 && |hi.data| == old(|hi.data|) - 1
    {
      ghost var l, h := lo.data, hi.data;
      forall k | 0 <= k < |h| ensures h[0] <= h[k] { RootFirst(false, h, k); }
      assert h[0] in h;
      var v := hi.Pop();
      lo.Push(v);
      SplitAfterMove(l, h, lo.data, hi.data, v);
    }

    /** Puts a value on its side of the split. */
    method Place(v: real)
      requires Valid()
      modifies this, lo, hi
      ensures Shape() && pushed == old(pushed) + [v] && |hi.data| <= |lo.data| + 1 && |lo.data| <= |hi.data| + 2
    {
      ghost var l, h := lo.data, hi.data;
      LargestFirst(l);
      if lo.data == [] || v <= lo.data[0] {
        lo.Push(v);
        SplitAfterMove(l, h, lo.data, h, v);
      } else {
        hi.Push(v);
        SplitAfterMove(l, h, l, hi.data, v);
      }
      pushed := pushed + [v];
    }

    method Push(v: real)
      requires Valid()
      modifies this, lo, hi
      ensures Valid() && pushed == old(pushed) + [v]
    {
      Place(v);
      while |lo.data| > |hi.data| + 1
        invariant Shape() && |hi.data| <= |lo.data| + 1 && pushed == old(pushed) + [v]
      {
        Lower();
      }
      while |hi.data| > |lo.data|
        invariant Shape() && |lo.data| <= |hi.data| + 1 && pushed == old(pushed) + [v]
      {
        Raise();
      }
    }

    method CurrentMedian() returns (m: real)
      requires Valid()
      ensures m == Median(pushed)
    {
      MedianOfHalves(pushed, lo.data, hi.data);
      if |lo.data| == 0 { return 0.0; }
      if |lo.data| > |hi.data| { return lo.data[0]; }
      m := (lo.data[0] + hi.data[0]) / 2.0;
    }
  }
}
