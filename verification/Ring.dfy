/** The fixed-size ring behind the anomaly window, the KPI history and the correlation store. */
module Rings {

  /** The last `n` elements of `s`, or all of it when it is shorter. */
  function Last<T>(s: seq<T>, n: nat): (r: seq<T>)
    ensures |r| == if |s| < n then |s| else n
  {
    if |s| <= n then s else s[|s| - n..]
  }

  /** Appending to a full window drops its oldest element. */
  lemma LastOfAppend<T>(s: seq<T>, x: T, n: nat)
    ensures n > 0 ==> var r := Last(s, n) + [x]; Last(s + [x], n) == if |r| > n then r[1..] else r
  {
  }

  lemma NoMultipleInside(p: int, c: nat)
    ensures p == 0 || p * c >= c || p * c <= -(c as int)
  {
    if p > 0 { assert p * c >= 1 * c; } else if p < 0 { assert p * c <= -1 * c; }
  }

  lemma DivisionUnique(a: int, q: int, r: int, c: nat)
    requires a == q * c + r && 0 <= r < c
    ensures a % c == r
  {
    var p := a / c - q;
    assert p * c == r - a % c;
    NoMultipleInside(p, c);
  }

  lemma ModuloOfSum(a: int, k: int, c: nat)
    requires c > 0
    ensures (a + k * c) % c == a % c
  {
    var q := a / c;
    assert a + k * c == (q + k) * c + a % c;
    DivisionUnique(a + k * c, q + k, a % c, c);
  }

  lemma NextSlot(m: nat, c: nat)
    requires c > 0
    ensures (m % c + 1) % c == (m + 1) % c
  {
    ModuloOfSum(m % c + 1, m / c, c);
  }

  /** Fewer than `c` steps apart, two numbers have different remainders. */
  lemma DistinctSlots(i: int, j: int, c: nat)
    requires c > 0 && i < j < i + c
    ensures i % c != j % c
  {
    var p := j / c - i / c;
    assert p * c == j - i - (j % c - i % c);
    NoMultipleInside(p, c);
  }

  /** The slot the reader computes for the `i`-th held value from the write position. */
  function ReaderSlot(pos: nat, n: nat, i: nat, c: nat): (slot: nat)
    requires pos < c && n <= c
    ensures slot < c
  {
    ((pos + c * 2 - n) % c + i) % c
  }

  /** It is the slot the writer used. */
  lemma ReadSlot(m: nat, n: nat, i: nat, c: nat)
    requires n <= c && n <= m && i < n
    ensures ReaderSlot(m % c, n, i, c) == (m - n + i) % c
  {
    var a := m % c + c * 2 - n;
    ModuloOfSum(a % c + i, a / c, c);
    assert a % c + i + a / c * c == a + i;
    ModuloOfSum(m - n + i, 2 - m / c, c);
    assert m - n + i + (2 - m / c) * c == a + i;
  }

  /** Entry `i` of the log is in its slot. */
  ghost predicate InSlot<T(!new)>(d: seq<T>, log: seq<T>, i: int) {
    0 <= i < |log| && |d| > 0 && d[i % |d|] == log[i]
  }

  /** Each of the last `n` entries of the log is in its slot. */
  ghost predicate Holds<T(!new)>(d: seq<T>, log: seq<T>, n: nat) {
    && n == (if |log| < |d| then |log| else |d|)
    && forall i {:trigger InSlot(d, log, i)} :: |log| - n <= i < |log| ==> InSlot(d, log, i)
  }

  lemma ReadHeld<T(!new)>(d: seq<T>, log: seq<T>, n: nat, i: nat)
    requires Holds(d, log, n) && i < n
    ensures d[ReaderSlot(|log| % |d|, n, i, |d|)] == log[|log| - n..][i]
  {
    ReadSlot(|log|, n, i, |d|);
    assert InSlot(d, log, |log| - n + i);
  }

  lemma PreviousSlot(m: nat, c: nat)
    requires 2 <= c && 2 <= m
    ensures (m % c + c * 2 - 2) % c == (m - 2) % c
  {
    ModuloOfSum(m - 2, 2 - m / c, c);
    assert m - 2 + (2 - m / c) * c == m % c + c * 2 - 2;
  }

  lemma PushHolds<T(!new)>(d: seq<T>, log: seq<T>, n: nat, v: T)
    requires Holds(d, log, n) && |d| > 0
    ensures Holds(d[|log| % |d| := v], log + [v], if n < |d| then n + 1 else n)
  {
    var (d', log') := (d[|log| % |d| := v], log + [v]);
    forall i | |log| - |d| < i <= |log| && i >= 0 ensures InSlot(d', log', i) {
      if i < |log| {
        DistinctSlots(i, |log|, |d|);
        assert InSlot(d, log, i);
      }
    }
  }

  /** The latest number below `m` that falls in slot `i`. */
  lemma LatestInSlot(m: nat, i: nat, c: nat) returns (j: nat)
    requires i < c <= m
    ensures m - c <= j < m && j % c == i
  {
    var x := m - 1 - i;
    var (q, r) := (x / c, x % c);
    assert x == q * c + r;
    j := m - 1 - r;
    DivisionUnique(j, q, i, c);
  }

  /** Ring order is a rotation: the first `n` slots hold only the last `n` entries. */
  lemma SlotIsHeld<T(!new)>(d: seq<T>, log: seq<T>, n: nat, i: nat)
    requires Holds(d, log, n) && i < n
    ensures d[i] in log[|log| - n..]
  {
    var j := i;
    if |log| >= |d| { j := LatestInSlot(|log|, i, |d|); } else { DivisionUnique(i, 0, i, |d|); }
    assert InSlot(d, log, j);
    assert log[j] == log[|log| - n..][j - (|log| - n)];
  }

  /** And each of those entries is in one of the slots. */
  lemma HeldIsInSlot<T(!new)>(d: seq<T>, log: seq<T>, n: nat, j: nat)
    requires Holds(d, log, n) && |log| - n <= j < |log|
    ensures log[j] in d[..n]
  {
    if |log| < |d| { DivisionUnique(j, 0, j, |d|); }
    assert InSlot(d, log, j);
    assert d[..n][j % |d|] == log[j];
  }

  /** So the first `n` slots hold the last `n` entries, in some order. */
  lemma SlotsAreHeld<T(!new)>(d: seq<T>, log: seq<T>, n: nat)
    requires Holds(d, log, n)
    ensures forall x :: x in d[..n] <==> x in log[|log| - n..]
  {
    forall x | x in d[..n] ensures x in log[|log| - n..] { FromSlots(d, log, n, x); }
    forall x | x in log[|log| - n..] ensures x in d[..n] { IntoSlots(d, log, n, x); }
  }

  lemma FromSlots<T(!new)>(d: seq<T>, log: seq<T>, n: nat, x: T)
    requires Holds(d, log, n) && x in d[..n]
    ensures x in log[|log| - n..]
  {
    var i :| 0 <= i < n && d[..n][i] == x;
    SlotIsHeld(d, log, n, i);
  }

  lemma IntoSlots<T(!new)>(d: seq<T>, log: seq<T>, n: nat, x: T)
    requires Holds(d, log, n) && x in log[|log| - n..]
    ensures x in d[..n]
  {
    var j :| 0 <= j < n && log[|log| - n..][j] == x;
    HeldIsInSlot(d, log, n, |log| - n + j);
  }

  class Ring<T(0, !new)> {
    const cap: nat
    const data: array<T>
    var pos: nat
    var n: nat
    ghost var log: seq<T>

    ghost predicate Valid()
      reads this, data
    {
      data.Length == cap && pos == (if cap == 0 then 0 else |log| % cap) && Holds(data[..], log, n)
    }

    constructor (cap: nat)
      ensures Valid() && this.cap == cap && log == [] && fresh(data)
    {
      this.cap := cap;
      data := new T[cap];
      pos := 0;
      n := 0;
      log := [];
    }

    /** What the ring still holds, oldest first. */
    ghost function Recent(): (r: seq<T>)
      reads this, data
      requires Valid()
      ensures r == Last(log, cap) && |r| == n
    {
      log[|log| - n..]
    }

    method Push(v: T)
      requires Valid() && cap > 0
      modifies this, data
      ensures Valid() && log == old(log) + [v]
    {
      PushHolds(data[..], log, n, v);
      NextSlot(|log|, cap);
      data[pos] := v;
      assert data[..] == old(data[..])[pos := v];
      pos := (pos + 1) % cap;
      if n < cap { n := n + 1; }
      log := log + [v];
    }

    /** The `i`-th of the held values, oldest first, read through the wrap-around. */
    function At(i: nat): (v: T)
      reads this, data
      requires Valid() && i < n
      ensures v == Recent()[i]
    {
      ReadHeld(data[..], log, n, i);
      data[ReaderSlot(pos, n, i, cap)]
    }

    /** The value pushed before the last one, or `none` when the ring holds fewer than two. */
    function Previous(none: T): (v: T)
      reads this, data
      requires Valid()
      ensures v == if |log| < 2 || cap < 2 then none else log[|log| - 2]
    {
      if n < 2 then none
      else
        PreviousSlot(|log|, cap);
        assert InSlot(data[..], log, |log| - 2);
        data[(pos + cap * 2 - 2) % cap]
    }
  }
}
