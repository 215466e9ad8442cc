/**
 * Sorted sequences of reals and the order statistics read from them: medians, and how many values of a sample satisfy
 * a predicate, whatever its order.
 */
module OrderStats {

  predicate Ascending(s: seq<real>) {
    forall i, j :: 0 <= i <= j < |s| ==> s[i] <= s[j]
  }

  function Insert(x: real, s: seq<real>): (r: seq<real>)
    ensures |r| == |s| + 1
  {
    if s == [] || x <= s[0] then [x] + s else [s[0]] + Insert(x, s[1..])
  }

  /** What sort.Float64s leaves in its argument. */
  function Sort(s: seq<real>): (r: seq<real>)
    ensures |r| == |s|
  {
    if s == [] then [] else Insert(s[|s| - 1], Sort(s[..|s| - 1]))
  }

  lemma InsertedLater(x: real, s: seq<real>, rest: seq<real>)
    requires Ascending(s) && s != [] && s[0] < x && Ascending(rest) && multiset(rest) == multiset(s[1..]) + multiset{x}
    ensures Ascending([s[0]] + rest)
  {
    forall j | 0 <= j < |rest| ensures s[0] <= rest[j] {
      assert rest[j] in multiset(rest);
      assert rest[j] == x || rest[j] in s[1..];
    }
  }

  lemma {:induction false} InsertIsSorted(x: real, s: seq<real>)
    requires Ascending(s)
    ensures Ascending(Insert(x, s)) && multiset(Insert(x, s)) == multiset(s) + multiset{x}
  {
    if s != [] && x > s[0] {
      InsertIsSorted(x, s[1..]);
      InsertedLater(x, s, Insert(x, s[1..]));
      assert s == [s[0]] + s[1..];
    }
  }

  lemma {:induction false} SortIsSorted(s: seq<real>)
    ensures Ascending(Sort(s)) && multiset(Sort(s)) == multiset(s)
  {
    if s != [] {
      var (init, x) := (s[..|s| - 1], s[|s| - 1]);
      SortIsSorted(init);
      InsertIsSorted(x, Sort(init));
      assert s == init + [x];
    }
  }

  lemma FirstIsLeast(a: seq<real>, x: real)
    requires Ascending(a) && x in multiset(a)
    ensures a != [] && a[0] <= x
  {
    var i :| 0 <= i < |a| && a[i] == x;
  }

  lemma MultisetTail(a: seq<real>)
    requires a != []
    ensures multiset(a[1..]) == multiset(a) - multiset{a[0]}
  {
    assert a == [a[0]] + a[1..];
  }

  lemma SameFirst(a: seq<real>, b: seq<real>)
    requires Ascending(a) && Ascending(b) && multiset(a) == multiset(b) && a != [] && b != []
    ensures a[0] == b[0] && multiset(a[1..]) == multiset(b[1..])
  {
    FirstIsLeast(a, b[0]);
    FirstIsLeast(b, a[0]);
    MultisetTail(a);
    MultisetTail(b);
  }

  /** A multiset has one ascending listing. */
  lemma {:induction false} AscendingUnique(a: seq<real>, b: seq<real>)
    requires Ascending(a) && Ascending(b) && multiset(a) == multiset(b)
    ensures a == b
  {
    assert |a| == |multiset(a)| && |b| == |multiset(b)|;
    if a != [] {
      SameFirst(a, b);
      AscendingUnique(a[1..], b[1..]);
      assert a == [a[0]] + a[1..] && b == [b[0]] + b[1..];
    }
  }

  /** The middle of an ascending listing: the mean of the two middle values when there are two, 0 when there is none. */
  function Middle(a: seq<real>): real {
    if a == [] then 0.0
    else if |a| % 2 == 1 then a[|a| / 2]
    else (a[|a| / 2 - 1] + a[|a| / 2]) / 2.0
  }

  /** The median of a sample. */
  function Median(s: seq<real>): real {
    Middle(Sort(s))
  }

  lemma MiddleAboveHalf(a: seq<real>)
    ensures Ascending(a) ==> (forall i :: 0 <= i < (|a| + 1) / 2 ==> a[i] <= Middle(a))
  {
  }

  ghost function Below(x: real): real -> bool {
    y => y < x
  }

  ghost function UpTo(x: real): real -> bool {
    y => y <= x
  }

  lemma {:induction false} CountNone(s: seq<real>, p: real -> bool)
    requires forall i :: 0 <= i < |s| ==> !p(s[i])
    ensures Count(s, p) == 0
  {
    if s != [] { CountNone(s[1..], p); }
  }

  lemma {:induction false} CountFront(s: seq<real>, i: nat, p: real -> bool)
    requires i <= |s| && forall j :: i <= j < |s| ==> !p(s[j])
    ensures Count(s, p) <= i
  {
    if i > 0 { CountFront(s[1..], i - 1, p); } else { CountNone(s, p); }
  }

  /** At most `i` values of an ascending listing are below its value number `i`, and more than `i` are not above. */
  lemma RankOf(a: seq<real>, i: nat)
    requires Ascending(a) && i < |a|
    ensures Count(a, Below(a[i])) <= i < Count(a, UpTo(a[i]))
  {
    CountFront(a, i, Below(a[i]));
    CountRange(a, 0, i + 1, UpTo(a[i]));
  }

  /** Those two numbers determine the value. */
  lemma RankDetermines(a: seq<real>, i: nat, x: real)
    requires Ascending(a) && i < |a| && Count(a, Below(x)) <= i < Count(a, UpTo(x))
    ensures x == a[i]
  {
    if x > a[i] { CountRange(a, 0, i + 1, Below(x)); }
    if x < a[i] { CountFront(a, i, UpTo(x)); }
  }

  function Negated(s: seq<real>): (r: seq<real>)
    ensures |r| == |s| && forall i :: 0 <= i < |r| ==> r[i] == -s[i]
  {
    seq(|s|, i requires 0 <= i < |s| => -s[i])
  }

  lemma {:induction false} NegatedCount(s: seq<real>, x: real)
    ensures multiset(Negated(s))[-x] == multiset(s)[x]
  {
    if s != [] {
      var n := |s| - 1;
      NegatedCount(s[..n], x);
      assert s == s[..n] + [s[n]];
      assert Negated(s) == Negated(s[..n]) + [-s[n]];
    }
  }

  function Mirrored(s: seq<real>): (r: seq<real>)
    ensures |r| == |s| && forall i :: 0 <= i < |r| ==> r[i] == -s[|s| - 1 - i]
  {
    seq(|s|, i requires 0 <= i < |s| => -s[|s| - 1 - i])
  }

  lemma {:induction false} MirroredCount(s: seq<real>, x: real)
    ensures multiset(Mirrored(s))[-x] == multiset(s)[x]
  {
    if s != [] {
      MirroredCount(s[1..], x);
      assert s == [s[0]] + s[1..];
      assert Mirrored(s) == Mirrored(s[1..]) + [-s[0]];
    }
  }

  lemma MiddleOfMirror(a: seq<real>)
    requires Ascending(a)
    ensures Ascending(Mirrored(a)) && Middle(Mirrored(a)) == -Middle(a)
  {
  }

  /** Mirroring a sample mirrors its median, so of two middle values neither is preferred. */
  lemma MedianOfMirror(s: seq<real>)
    ensures Median(Negated(s)) == -Median(s)
  {
    SortIsSorted(s);
    MirrorListing(s, Sort(s));
    MiddleOfMirror(Sort(s));
    MedianOfListing(Negated(s), Mirrored(Sort(s)));
  }

  lemma MirrorListing(s: seq<real>, a: seq<real>)
    requires multiset(a) == multiset(s)
    ensures multiset(Mirrored(a)) == multiset(Negated(s))
  {
    forall y ensures multiset(Mirrored(a))[y] == multiset(Negated(s))[y] {
      MirroredCount(a, -y);
      NegatedCount(s, -y);
    }
  }

  /** At most half of a sample is below its median, and at least half is not above. */
  lemma MedianHalves(s: seq<real>)
    ensures 2 * Count(s, Below(Median(s))) <= |s| <= 2 * Count(s, UpTo(Median(s)))
  {
    SortIsSorted(s);
    MiddleHalves(Sort(s));
    CountPermutation(s, Sort(s), Below(Median(s)));
    CountPermutation(s, Sort(s), UpTo(Median(s)));
  }

  lemma MiddleHalves(a: seq<real>)
    requires Ascending(a)
    ensures 2 * Count(a, Below(Middle(a))) <= |a| <= 2 * Count(a, UpTo(Middle(a)))
  {
    var m := Middle(a);
    MiddleAboveHalf(a);
    CountRange(a, 0, (|a| + 1) / 2, UpTo(m));
    CountFront(a, |a| / 2, Below(m));
  }

  lemma MedianOfListing(s: seq<real>, a: seq<real>)
    requires Ascending(a) && multiset(a) == multiset(s)
    ensures Median(s) == Middle(a)
  {
    SortIsSorted(s);
    AscendingUnique(Sort(s), a);
  }

  lemma AscendingAppend(a: seq<real>, b: seq<real>, lo: seq<real>, hi: seq<real>)
    requires Ascending(a) && Ascending(b) && multiset(a) == multiset(lo) && multiset(b) == multiset(hi)
    requires forall x, y :: x in lo && y in hi ==> x <= y
    ensures Ascending(a + b)
  {
    forall i, j | 0 <= i < |a| && 0 <= j < |b| ensures a[i] <= b[j] {
      assert a[i] in multiset(a) && b[j] in multiset(b);
      assert a[i] in lo && b[j] in hi;
    }
  }

  /** How many values of a sample satisfy a predicate. */
  function Count(s: seq<real>, p: real -> bool): (n: nat)
    ensures n <= |s|
  {
    if s == [] then 0 else (if p(s[0]) then 1 else 0) + Count(s[1..], p)
  }

  lemma {:induction false} CountRemove(s: seq<real>, i: nat, p: real -> bool)
    requires i < |s|
    ensures Count(s, p) == Count(s[..i] + s[i + 1..], p) + if p(s[i]) then 1 else 0
  {
    var t := s[..i] + s[i + 1..];
    if i == 0 {
      assert t == s[1..];
    } else {
      assert t[1..] == s[1..][..i - 1] + s[1..][i..];
      CountRemove(s[1..], i - 1, p);
    }
  }

  /** Counting does not depend on order. */
  lemma {:induction false} CountPermutation(s: seq<real>, t: seq<real>, p: real -> bool)
    requires multiset(s) == multiset(t)
    ensures Count(s, p) == Count(t, p)
  {
    if s == [] {
      assert |t| == |multiset(t)| == 0;
    } else {
      assert s[0] in multiset(t);
      var i :| 0 <= i < |t| && t[i] == s[0];
      MultisetTail(s);
      assert t == t[..i] + [t[i]] + t[i + 1..];
      CountPermutation(s[1..], t[..i] + t[i + 1..], p);
      CountRemove(t, i, p);
    }
  }

  /** Two disjoint predicates share a sample between them. */
  lemma {:induction false} CountDisjoint(s: seq<real>, p: real -> bool, q: real -> bool)
    requires forall i :: 0 <= i < |s| && p(s[i]) ==> !q(s[i])
    ensures Count(s, p) + Count(s, q) <= |s|
  {
    if s != [] { CountDisjoint(s[1..], p, q); }
  }

  /** A predicate that holds of a stretch of positions holds at least that often. */
  lemma {:induction false} CountRange(s: seq<real>, from: nat, to: nat, p: real -> bool)
    requires from <= to <= |s|
    requires forall i :: from <= i < to ==> p(s[i])
    ensures Count(s, p) >= to - from
  {
    if from > 0 {
      CountRange(s[1..], from - 1, to - 1, p);
    } else if to > 0 {
      CountRange(s[1..], 0, to - 1, p);
    }
  }

  lemma {:induction false} CountAppend(s: seq<real>, t: seq<real>, p: real -> bool)
    ensures Count(s + t, p) == Count(s, p) + Count(t, p)
  {
    if s == [] {
      assert s + t == t;
    } else {
      assert (s + t)[1..] == s[1..] + t;
      CountAppend(s[1..], t, p);
    }
  }

  lemma {:induction false} CountNext(s: seq<real>, i: nat, p: real -> bool)
    requires i < |s|
    ensures Count(s[..i + 1], p) == Count(s[..i], p) + if p(s[i]) then 1 else 0
  {
    assert s[..i + 1] == s[..i] + [s[i]];
    CountAppend(s[..i], [s[i]], p);
  }
}
