/** What makes a window a trend, in terms of its readings. */
module SaturationTrends {
  import opened OrderStats
  import opened Options
  import opened Saturation

  // ---- The slopes of all pairs ----

  /** Reading `j` is later than reading `i`, and the slope between them passes the test. */
  ghost predicate Passes(points: seq<Point>, i: nat, j: nat, test: real -> bool) {
    && i < j < |points| && points[i].at < points[j].at
    && test((points[j].usage - points[i].usage) / ((points[j].at - points[i].at) as real / 1_000_000_000.0))
  }

  /** The pairs of readings whose slope passes the test. */
  ghost function PairsWhere(points: seq<Point>, test: real -> bool): set<(nat, nat)> {
    set i: nat, j: nat | i < |points| && j < |points| && Passes(points, i, j, test) :: (i, j)
  }

  ghost function RowWhere(points: seq<Point>, i: nat, k: nat, test: real -> bool): set<(nat, nat)> {
    set j: nat | j < k && Passes(points, i, j, test) :: (i, j)
  }

  ghost function RowsWhere(points: seq<Point>, n: nat, test: real -> bool): set<(nat, nat)> {
    set i: nat, j: nat | i < n && j < |points| && Passes(points, i, j, test) :: (i, j)
  }

  lemma {:induction false} RowCounts(points: seq<Point>, i: nat, k: nat, test: real -> bool)
    requires i < k <= |points|
    ensures Count(SlopesFrom(points[i], points[i + 1..k]), test) == |RowWhere(points, i, k, test)|
    decreases k
  {
    if k == i + 1 {
      assert RowWhere(points, i, k, test) == {};
    } else {
      var n := k - 1;
      var more := if points[i].at < points[n].at then [Slope(points[i], points[n])] else [];
      RowCounts(points, i, n, test);
      SlopesFromNext(points[i], points, i + 1, n);
      CountAppend(SlopesFrom(points[i], points[i + 1..n]), more, test);
      RowNext(points, i, n, test);
    }
  }

  lemma RowNext(points: seq<Point>, i: nat, n: nat, test: real -> bool)
    requires i < n < |points|
    ensures |RowWhere(points, i, n + 1, test)| ==
            |RowWhere(points, i, n, test)| + if Passes(points, i, n, test) then 1 else 0
  {
    var row := RowWhere(points, i, n, test);
    assert (i, n) !in row;
    assert RowWhere(points, i, n + 1, test) == if Passes(points, i, n, test) then row + {(i, n)} else row;
  }

  lemma Together(a: set<(nat, nat)>, b: set<(nat, nat)>)
    requires a !! b
    ensures |a + b| == |a| + |b|
  {
  }

  lemma RowsNext(points: seq<Point>, n: nat, test: real -> bool)
    requires n < |points|
    ensures |RowsWhere(points, n + 1, test)| == |RowsWhere(points, n, test)| + |RowWhere(points, n, |points|, test)|
  {
    var (rows, row) := (RowsWhere(points, n, test), RowWhere(points, n, |points|, test));
    assert RowsWhere(points, n + 1, test) == rows + row;
    Together(rows, row);
  }

  lemma WholeRow(points: seq<Point>, i: nat, test: real -> bool)
    requires i < |points|
    ensures Count(SlopesFrom(points[i], points[i + 1..]), test) == |RowWhere(points, i, |points|, test)|
  {
    RowCounts(points, i, |points|, test);
    WholeTail(points, i + 1);
  }

  lemma {:induction false} RowsCount(points: seq<Point>, n: nat, test: real -> bool)
    requires n <= |points|
    ensures Count(AllSlopes(points, n), test) == |RowsWhere(points, n, test)|
  {
    if n == 0 {
      assert RowsWhere(points, 0, test) == {};
    } else {
      RowsCount(points, n - 1, test);
      WholeRow(points, n - 1, test);
      CountAppend(AllSlopes(points, n - 1), SlopesFrom(points[n - 1], points[n..]), test);
      RowsNext(points, n - 1, test);
    }
  }

  /** The sorted slopes are those of all pairs of a reading and a later one: as many of them pass any test. */
  lemma SlopesArePairs(points: seq<Point>, test: real -> bool)
    ensures Ascending(PairSlopesOf(points))
    ensures Count(PairSlopesOf(points), test) == |PairsWhere(points, test)|
  {
    var all := AllSlopes(points, |points|);
    SortIsSorted(all);
    CountPermutation(Sort(all), all, test);
    RowsCount(points, |points|, test);
    assert RowsWhere(points, |points|, test) == PairsWhere(points, test);
  }

  /** Pairs of a reading and a later, higher one. */
  ghost function RisingPairs(points: seq<Point>): set<(nat, nat)> {
    set i: nat, j: nat | i < j < |points| && points[i].at < points[j].at && points[i].usage < points[j].usage :: (i, j)
  }

  /** Pairs of a reading and a later, different one. */
  ghost function ChangingPairs(points: seq<Point>): set<(nat, nat)> {
    set i: nat, j: nat | i < j < |points| && points[i].at < points[j].at && points[i].usage != points[j].usage :: (i, j)
  }

  lemma QuotientSign(x: real, y: real)
    requires y > 0.0
    ensures (x / y > 0.0 <==> x > 0.0) && (x / y != 0.0 <==> x != 0.0)
  {
    assert x / y * y == x;
  }

  lemma PairSigns(points: seq<Point>, i: nat, j: nat)
    requires i < j < |points| && points[i].at < points[j].at
    ensures Passes(points, i, j, Positive()) <==> points[i].usage < points[j].usage
    ensures Passes(points, i, j, Changing()) <==> points[i].usage != points[j].usage
  {
    QuotientSign(points[j].usage - points[i].usage, (points[j].at - points[i].at) as real / 1_000_000_000.0);
  }

  lemma RisingCounts(points: seq<Point>)
    ensures Count(PairSlopesOf(points), Positive()) == |RisingPairs(points)|
    ensures Count(PairSlopesOf(points), Changing()) == |ChangingPairs(points)|
  {
    SlopesArePairs(points, Positive());
    SlopesArePairs(points, Changing());
    forall i: nat, j: nat | i < j < |points| && points[i].at < points[j].at
      ensures Passes(points, i, j, Positive()) <==> points[i].usage < points[j].usage
      ensures Passes(points, i, j, Changing()) <==> points[i].usage != points[j].usage
    {
      PairSigns(points, i, j);
    }
    assert PairsWhere(points, Positive()) == RisingPairs(points);
    assert PairsWhere(points, Changing()) == ChangingPairs(points);
  }

  /** `share` is the part of the whole, and 0 when there is none. */
  ghost predicate IsShare(share: real, part: nat, whole: nat) {
    && share * whole as real == part as real && (whole == 0 ==> share == 0.0)
    && (whole > 0 ==> (share >= 0.8 <==> 5 * part >= 4 * whole))
  }

  lemma ShareOf(share: real, part: nat, whole: nat)
    requires part <= whole && share == if whole == 0 then 0.0 else part as real / whole as real
    ensures IsShare(share, part, whole)
  {
    if whole > 0 { ShareAtLeast(part as real, whole as real, share); }
  }

  lemma ShareAtLeast(part: real, whole: real, share: real)
    requires whole > 0.0 && share == part / whole
    ensures share * whole == part && (share >= 0.8 <==> part >= 0.8 * whole)
  {
    assert share * whole == part;
    assert (share - 0.8) * whole == part - 0.8 * whole;
  }

  /** The agreement is the share of the changing pairs that rise, and 0 when nothing changes. */
  lemma AgreementMeans(points: seq<Point>)
    ensures IsShare(Agreement(PairSlopesOf(points)), |RisingPairs(points)|, |ChangingPairs(points)|)
  {
    var slopes := PairSlopesOf(points);
    RisingCounts(points);
    PositiveIsChanging(slopes);
    ShareOf(Agreement(slopes), |RisingPairs(points)|, |ChangingPairs(points)|);
  }

  // ---- Averages ----

  /** Changing one reading changes the average by its share of the difference. */
  lemma AverageOfChanged(points: seq<Point>, i: nat, p: Point)
    requires i < |points|
    ensures (AverageOf(points[i := p]) - AverageOf(points)) * |points| as real == p.usage - points[i].usage
  {
    SumOfChanged(points, i, p);
    var (a, b, n) := (Sum(points[i := p]), Sum(points), |points| as real);
    assert a / n * n == a && b / n * n == b;
  }

  lemma {:induction false} SumOfChanged(points: seq<Point>, i: nat, p: Point)
    requires i < |points|
    ensures Sum(points[i := p]) == Sum(points) - points[i].usage + p.usage
  {
    var n := |points| - 1;
    if i < n {
      SumOfChanged(points[..n], i, p);
      assert points[i := p][..n] == points[..n][i := p];
    } else {
      assert points[i := p][..n] == points[..n];
    }
  }

  // ---- When there is an estimate ----

  /** A quarter of `n` readings, and at least one. */
  ghost function Quarter(n: nat): (q: nat)
    ensures n >= 1 ==> 1 <= q <= n
    ensures n >= 2 ==> 2 * q <= n
  {
    if n < 4 then 1 else n / 4
  }

  /** A fifth of what the slope promises over the whole stretch. */
  ghost function Expected(half: seq<Point>, slope: real): real
    requires half != []
  {
    0.2 * (slope * ((half[|half| - 1].at - half[0].at) as real / 1_000_000_000.0))
  }

  /** Reading `i` is in the first quarter, reading `j` in the last. */
  ghost predicate AtEnds(half: seq<Point>, i: nat, j: nat) {
    i < Quarter(|half|) && |half| - Quarter(|half|) <= j < |half|
  }

  /** Every reading of the last quarter is that far above every one of the first. */
  ghost predicate AllAbove(half: seq<Point>, x: real) {
    forall i: nat, j: nat {:trigger AtEnds(half, i, j)} ::
      AtEnds(half, i, j) ==> half[j].usage - half[i].usage >= x
  }

  /** Some reading of the last quarter is that far above some reading of the first. */
  ghost predicate SomeAbove(half: seq<Point>, x: real) {
    exists i: nat, j: nat {:trigger AtEnds(half, i, j)} ::
      AtEnds(half, i, j) && half[j].usage - half[i].usage >= x
  }

  /** The readings of the last quarter together are that far above those of the first. */
  ghost predicate Gains(half: seq<Point>, x: real)
    requires half != []
  {
    var q := Quarter(|half|);
    Sum(half[|half| - q..]) - Sum(half[..q]) >= q as real * x
  }

  lemma {:induction false} Extremes(points: seq<Point>) returns (low: nat, high: nat)
    requires points != []
    ensures low < |points| && high < |points| && UsageWithin(points, points[low].usage, points[high].usage)
  {
    var n := |points| - 1;
    low, high := n, n;
    if n > 0 {
      var (init, l, h) := (points[..n], 0, 0);
      l, h := Extremes(init);
      assert forall i :: 0 <= i < n ==> init[i] == points[i];
      if points[l].usage < points[n].usage { low := l; }
      if points[h].usage > points[n].usage { high := h; }
    }
  }

  lemma ScaledDifference(a: real, b: real, q: nat, x: real)
    requires q >= 1
    ensures a / q as real - b / q as real >= x <==> a - b >= q as real * x
  {
    var (n, u, v) := (q as real, a / q as real, b / q as real);
    assert u * n == a && v * n == b;
    assert (u - v - x) * n == a - b - n * x;
  }

  lemma RiseGains(half: seq<Point>, x: real)
    requires half != []
    ensures NetRise(half) >= x <==> Gains(half, x)
  {
    var q := Quarter(|half|);
    assert q == EdgeSize(|half|);
    ScaledDifference(Sum(half[|half| - q..]), Sum(half[..q]), q, x);
  }

  lemma HalfGains(half: seq<Point>, slope: real)
    requires half != []
    ensures HalfRises(half, slope) <==> Gains(half, Expected(half, slope))
  {
    RiseGains(half, Expected(half, slope));
  }

  /** A stretch whose last quarter is all that far above its first gains enough, and one that does has such a pair. */
  lemma GainsBetween(half: seq<Point>, x: real)
    requires half != []
    ensures (AllAbove(half, x) ==> Gains(half, x)) && (Gains(half, x) ==> SomeAbove(half, x))
  {
    var (n, q) := (|half|, Quarter(|half|));
    var (first, last) := (half[..q], half[n - q..]);
    var low, high := Extremes(first);
    var low', high' := Extremes(last);
    RiseBetween(half, (first[low].usage, first[high].usage), (last[low'].usage, last[high'].usage));
    RiseGains(half, x);
    assert AtEnds(half, high, n - q + low') && AtEnds(half, low, n - q + high');
  }

  /** Reading `k` is in the first half of the window's time, its middle included. */
  ghost predicate Early(points: seq<Point>, k: nat)
    requires k < |points|
  {
    2 * (points[k].at - points[0].at) <= points[|points| - 1].at - points[0].at
  }

  /** The readings before `split` are those in the first half. */
  ghost predicate SplitsTime(points: seq<Point>, split: nat) {
    split <= |points| && forall k: nat {:trigger Early(points, k)} :: k < |points| ==> (k < split <==> Early(points, k))
  }

  lemma SplitOf(points: seq<Point>)
    requires TimeOrdered(points) && points != []
    ensures SplitsTime(points, SearchAfter(points, MidTime(points), 0, |points|))
  {
    SearchFindsSplit(points, MidTime(points), 0, |points|);
    var split := SearchAfter(points, MidTime(points), 0, |points|);
    forall k: nat | k < |points| ensures k < split <==> Early(points, k) {
      assert points[0].at <= points[k].at <= points[|points| - 1].at;
    }
  }

  lemma SplitUnique(points: seq<Point>, a: nat, b: nat)
    requires SplitsTime(points, a) && SplitsTime(points, b)
    ensures a == b
  {
    if a < |points| { assert Early(points, a) <==> a < b; }
    if b < |points| { assert Early(points, b) <==> b < a; }
  }

  /** Enough pairs rise, and both halves of the window's time have at least two readings and gain enough. */
  ghost predicate GrowsThroughout(points: seq<Point>, slope: real, split: nat)
    requires split <= |points|
  {
    && slope > 0.0 && 5 * |RisingPairs(points)| >= 4 * |ChangingPairs(points)|
    && 2 <= split <= |points| - 2
    && Gains(points[..split], Expected(points[..split], slope))
    && Gains(points[split..], Expected(points[split..], slope))
  }

  /**
   * A window in time order has an estimate exactly when it holds five readings over ten minutes or more, the median
   * slope is positive, at least four fifths of the changing pairs rise, and both halves gain enough.
   */
  lemma WhenEstimated(points: seq<Point>, split: nat)
    requires TimeOrdered(points) && points != [] && SplitsTime(points, split)
    ensures EstimateOf(points).Some? <==>
            && |points| >= 5 && points[|points| - 1].at - points[0].at >= 600_000_000_000
            && GrowsThroughout(points, Middle(PairSlopesOf(points)), split)
  {
    SplitOf(points);
    SplitUnique(points, split, SearchAfter(points, MidTime(points), 0, |points|));
    var m := Middle(PairSlopesOf(points));
    AgreementMeans(points);
    if m > 0.0 { SomethingChanges(points); }
    if 2 <= split <= |points| - 2 {
      HalfGains(points[..split], m);
      HalfGains(points[split..], m);
    }
  }

  lemma SomethingChanges(points: seq<Point>)
    requires Middle(PairSlopesOf(points)) > 0.0
    ensures ChangingPairs(points) != {}
  {
    var slopes := PairSlopesOf(points);
    SortIsSorted(AllSlopes(points, |points|));
    var n := |slopes|;
    assert slopes[n / 2] > 0.0;
    CountRange(slopes, n / 2, n / 2 + 1, Changing());
    RisingCounts(points);
    assert |ChangingPairs(points)| > 0;
  }
}
